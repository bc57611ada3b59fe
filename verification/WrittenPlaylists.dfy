/** The rewriter on playlists as servers write them: blank lines, resource lines and tags with quoted
    `URI` attributes come back as the same lines with a local URL for each reference. */
module WrittenPlaylists {
  import opened PlaylistRewrite
  import opened Text
  import opened Wrappers

  /** A quoted `URI` value and the text from behind its closing quote up to the next one. */
  datatype Attribute = Attribute(value: string, after: string)

  /** A tag is its text up to the first quoted `URI`, and the attributes from there. */
  datatype Content = Blank(spaces: string) | Resource(url: string) | Tag(head: string, attributes: seq<Attribute>)

  datatype Row = Row(content: Content, ending: string)

  function TagText(head: string, attributes: seq<Attribute>): string
    decreases |attributes|
  {
    if attributes == [] then head
    else head + "URI=\"" + (attributes[0].value + TagText("\"" + attributes[0].after, attributes[1..]))
  }

  function ContentText(c: Content): string {
    match c
    case Blank(spaces) => spaces
    case Resource(url) => url
    case Tag(head, attributes) => TagText(head, attributes)
  }

  function Written(rows: seq<Row>): string {
    if rows == [] then "" else ContentText(rows[0].content) + rows[0].ending + Written(rows[1..])
  }

  // ----- what may be written

  predicate OneLine(s: string) {
    forall c <- s :: c != '\n' && c != '\r'
  }

  /** No quoted `URI` starts in the text. */
  predicate Unmarked(s: string) {
    Find(s, "URI=\"").None?
  }

  predicate WellWrittenAttribute(a: Attribute) {
    '"' !in a.value && OneLine(a.value) && OneLine(a.after) && Unmarked(a.after)
  }

  predicate WellWritten(c: Content) {
    match c
    case Blank(spaces) => OneLine(spaces) && forall c <- spaces :: IsWhitespace(c)
    case Resource(url) => url != "" && Trimmed(url) && url[0] != '#' && OneLine(url)
    case Tag(head, attributes) =>
      && head != "" && head[0] == '#' && OneLine(head) && Unmarked(head)
      && forall a <- attributes :: WellWrittenAttribute(a)
  }

  /** Every line is terminated, but the last one need not be unless it is empty. */
  predicate WellTerminated(rows: seq<Row>) {
    forall i :: 0 <= i < |rows| ==>
      rows[i].ending == "\n" || rows[i].ending == "\r\n"
      || (rows[i].ending == "" && i == |rows| - 1 && ContentText(rows[i].content) != "")
  }

  predicate AllWellWritten(rows: seq<Row>) {
    forall i :: 0 <= i < |rows| ==> WellWritten(rows[i].content)
  }

  // ----- what is expected

  function LocalAttributes(site: Site, attributes: seq<Attribute>): seq<Attribute> {
    if attributes == [] then []
    else [Attribute(Local(site, attributes[0].value), attributes[0].after)] + LocalAttributes(site, attributes[1..])
  }

  function LocalContent(site: Site, c: Content): Content {
    match c
    case Blank(_) => c
    case Resource(url) => Resource(Local(site, url))
    case Tag(head, attributes) => Tag(head, LocalAttributes(site, attributes))
  }

  function LocalRows(site: Site, rows: seq<Row>): seq<Row> {
    if rows == [] then []
    else [Row(LocalContent(site, rows[0].content), rows[0].ending)] + LocalRows(site, rows[1..])
  }

  predicate AttributesJoin(site: Site, attributes: seq<Attribute>) {
    forall a <- attributes :: site.join(a.value).Some?
  }

  predicate Joins(site: Site, c: Content) {
    match c
    case Blank(_) => true
    case Resource(url) => site.join(url).Some?
    case Tag(_, attributes) => AttributesJoin(site, attributes)
  }

  predicate AllJoin(site: Site, rows: seq<Row>) {
    forall i :: 0 <= i < |rows| ==> Joins(site, rows[i].content)
  }

  // ----- tags

  /** `URI="` has no proper prefix that is also a suffix, so it is found where it is written. */
  lemma {:induction false} MarkerIsFound(head: string, rest: string)
    requires Unmarked(head)
    ensures Find(head + "URI=\"" + rest, "URI=\"") == Some(|head|)
  {
    var s := head + "URI=\"" + rest;
    if head == "" {
      assert s == "URI=\"" + rest;
    } else {
      assert s[1..] == head[1..] + "URI=\"" + rest;
      assert !("URI=\"" <= s) by {
        if |head| < 5 {
          assert s[|head|] == 'U';
        } else {
          assert s[..5] == head[..5];
        }
      }
      MarkerIsFound(head[1..], rest);
    }
  }

  lemma QuoteIsUnmarked(after: string)
    requires Unmarked(after)
    ensures Unmarked("\"" + after)
  {
    var s := "\"" + after;
    assert s[0] == '"' && s[1..] == after;
  }

  lemma TagPieces(head: string, a: Attribute, next: string)
    requires Unmarked(head) && WellWrittenAttribute(a) && next != "" && next[0] == '"'
    ensures Pieces(head + "URI=\"" + (a.value + next)) == [Keep(head + "URI=\""), Uri(a.value)] + Pieces(next)
  {
    MarkerIsFound(head, a.value + next);
    PiecesOf(head + "URI=\"", a.value, next);
  }

  lemma TagTextStarts(head: string, attributes: seq<Attribute>)
    requires head != ""
    ensures TagText(head, attributes) != "" && TagText(head, attributes)[0] == head[0]
  {
  }

  lemma {:induction false} TagIsRewritten(site: Site, head: string, attributes: seq<Attribute>)
    requires Unmarked(head) && forall a <- attributes :: WellWrittenAttribute(a)
    ensures Rewritten(site, Pieces(TagText(head, attributes)))
            == if AttributesJoin(site, attributes) then Some(TagText(head, LocalAttributes(site, attributes))) else None
    decreases |attributes|
  {
    if attributes == [] {
      OneKeep(site, map[], head);
    } else {
      var a, rest := attributes[0], attributes[1..];
      assert attributes == [a] + rest && a in attributes;
      QuoteIsUnmarked(a.after);
      var next := TagText("\"" + a.after, rest);
      TagTextStarts("\"" + a.after, rest);
      TagPieces(head, a, next);
      TagIsRewritten(site, "\"" + a.after, rest);
      FirstAttribute(site, head, a, rest);
    }
  }

  lemma FirstAttribute(site: Site, head: string, a: Attribute, rest: seq<Attribute>)
    ensures var next := TagText("\"" + a.after, rest);
            Rewritten(site, [Keep(head + "URI=\""), Uri(a.value)] + Pieces(next))
            == if site.join(a.value).None? || Rewritten(site, Pieces(next)).None? then None
               else Some(head + "URI=\"" + (Local(site, a.value) + Rewritten(site, Pieces(next)).value))
    ensures LocalAttributes(site, [a] + rest)[1..] == LocalAttributes(site, rest)
  {
    var next := TagText("\"" + a.after, rest);
    RewrittenAppend(site, [Keep(head + "URI=\""), Uri(a.value)], Pieces(next));
    OneUri(site, map[], head + "URI=\"", a.value);
    assert ([a] + rest)[1..] == rest;
    if site.join(a.value).Some? && Rewritten(site, Pieces(next)).Some? {
      Nested(head + "URI=\"", Local(site, a.value), Rewritten(site, Pieces(next)).value);
    }
  }

  lemma Nested(a: string, b: string, c: string)
    ensures a + b + c == a + (b + c)
  {
  }

  // ----- lines

  lemma {:induction false} BlankIsTrimmedAway(s: string)
    requires forall c <- s :: IsWhitespace(c)
    ensures TrimStart(s) == ""
  {
    if s != "" {
      assert s[0] in s && forall c <- s[1..] :: c in s;
      BlankIsTrimmedAway(s[1..]);
    }
  }

  lemma ContentIsRewritten(site: Site, c: Content)
    requires WellWritten(c)
    ensures Rewritten(site, ContentPieces(ContentText(c)))
            == if Joins(site, c) then Some(ContentText(LocalContent(site, c))) else None
  {
    match c {
      case Blank(spaces) =>
        BlankIsTrimmedAway(spaces);
        assert spaces != "" ==> spaces[0] in spaces;
        OneKeep(site, map[], spaces);
      case Resource(url) =>
        TrimmedIsFixed(url);
        OneUri(site, map[], "", url);
      case Tag(head, attributes) =>
        TagTextStarts(head, attributes);
        TagIsRewritten(site, head, attributes);
    }
  }

  lemma {:induction false} TagIsOneLine(head: string, attributes: seq<Attribute>)
    requires OneLine(head) && forall a <- attributes :: WellWrittenAttribute(a)
    ensures OneLine(TagText(head, attributes))
    decreases |attributes|
  {
    if attributes != [] {
      assert attributes[0] in attributes;
      TagIsOneLine("\"" + attributes[0].after, attributes[1..]);
    }
  }

  lemma ContentIsOneLine(c: Content)
    requires WellWritten(c)
    ensures OneLine(ContentText(c))
  {
    if c.Tag? {
      TagIsOneLine(c.head, c.attributes);
    }
  }

  lemma RowIsRewritten(site: Site, row: Row)
    requires WellWritten(row.content) && IsEnding(row.ending)
    ensures Rewritten(site, LinePieces(ContentText(row.content) + row.ending))
            == if Joins(site, row.content) then Some(ContentText(LocalContent(site, row.content)) + row.ending)
               else None
  {
    var text := ContentText(row.content);
    ContentIsOneLine(row.content);
    assert text != "" ==> text[|text| - 1] in text;
    ContentFixed(text);
    ContentAndEnding(text, row.ending);
    ContentIsRewritten(site, row.content);
    EndLine(site, map[], ContentPieces(text), row.ending);
  }

  lemma ContentFixed(text: string)
    requires text == "" || !LineBreak(text[|text| - 1])
    ensures PlaylistRewrite.Content(text) == text
  {
  }

  lemma RowIsLine(row: Row, last: bool)
    requires WellWritten(row.content)
    requires row.ending == "\n" || row.ending == "\r\n" || (row.ending == "" && last && ContentText(row.content) != "")
    ensures IsLine(ContentText(row.content) + row.ending)
    ensures !last ==> var line := ContentText(row.content) + row.ending; line[|line| - 1] == '\n'
  {
    ContentIsOneLine(row.content);
    OutLineIsLine(ContentText(row.content), row.ending);
  }

  lemma AllJoinSplits(site: Site, rows: seq<Row>)
    requires rows != []
    ensures AllJoin(site, rows) <==> Joins(site, rows[0].content) && AllJoin(site, rows[1..])
  {
    if AllJoin(site, rows) {
      forall i | 0 <= i < |rows[1..]| ensures Joins(site, rows[1..][i].content) {
        assert Joins(site, rows[i + 1].content);
      }
    } else {
      var i :| 0 <= i < |rows| && !Joins(site, rows[i].content);
      assert i > 0 ==> rows[1..][i - 1] == rows[i];
    }
  }

  lemma RestIsWritten(rows: seq<Row>)
    requires AllWellWritten(rows) && WellTerminated(rows) && rows != []
    ensures AllWellWritten(rows[1..]) && WellTerminated(rows[1..])
    ensures var line := ContentText(rows[0].content) + rows[0].ending;
            NextLine(line + Written(rows[1..])) == line && line != ""
            && (line + Written(rows[1..]))[|line|..] == Written(rows[1..])
  {
    forall i | 0 <= i < |rows[1..]| ensures rows[1..][i] == rows[i + 1] {
    }
    RowIsLine(rows[0], |rows| == 1);
    NextLineOf(ContentText(rows[0].content) + rows[0].ending, Written(rows[1..]));
  }

  /** A written playlist is rewritten to the same rows with the same endings, every reference replaced by
      its local URL and nothing else touched, if all references join with the playlist's URL; if one does
      not, the rewriting fails. */
  lemma {:induction false} WrittenIsRewritten(site: Site, rows: seq<Row>)
    requires AllWellWritten(rows) && WellTerminated(rows)
    ensures Rewritten(site, TextPieces(Written(rows)))
            == if AllJoin(site, rows) then Some(Written(LocalRows(site, rows))) else None
  {
    if rows == [] {
      assert AllResolve(site, []);
    } else {
      var row, rest := rows[0], rows[1..];
      var line := ContentText(row.content) + row.ending;
      RestIsWritten(rows);
      WrittenIsRewritten(site, rest);
      RowIsRewritten(site, row);
      RowAndRest(site, line, Written(rest));
      AllJoinSplits(site, rows);
    }
  }

  lemma RowAndRest(site: Site, line: string, rest: string)
    requires line != "" && NextLine(line + rest) == line && (line + rest)[|line|..] == rest
    ensures Rewritten(site, TextPieces(line + rest))
            == Then(Rewritten(site, LinePieces(line)), Rewritten(site, TextPieces(rest)))
  {
    TextUnfolds(line + rest);
    RewrittenAppend(site, LinePieces(line), TextPieces(rest));
  }

  // ----- which paths are routes

  predicate Slashes(s: string) {
    forall c <- s :: c == '/'
  }

  predicate Query(s: string) {
    s != "" ==> s[0] == '?'
  }

  predicate Segment(s: string) {
    s != "" && '/' !in s && '?' !in s
  }

  /** Slashes, `hls/token/resource`, and possibly a query. */
  predicate RouteForm(path: string, slashes: string, token: string, resource: string, query: string) {
    && Slashes(slashes) && Segment(token) && Segment(resource) && Query(query)
    && path == slashes + RouteTail(token, resource) + query
  }

  function RouteTail(token: string, resource: string): string {
    "hls" + (['/'] + (token + (['/'] + resource)))
  }

  lemma {:induction false} SlashesAreTrimmed(slashes: string, rest: string)
    requires Slashes(slashes) && rest != "" && rest[0] != '/'
    ensures TrimSlashes(slashes + rest) == rest
  {
    if slashes == "" {
      assert slashes + rest == rest;
    } else {
      assert slashes[0] in slashes && (slashes + rest)[1..] == slashes[1..] + rest;
      assert forall c <- slashes[1..] :: c in slashes;
      SlashesAreTrimmed(slashes[1..], rest);
    }
  }

  lemma {:induction false} SlashesBefore(s: string) returns (slashes: string)
    ensures Slashes(slashes) && s == slashes + TrimSlashes(s)
  {
    slashes := "";
    if s != "" && s[0] == '/' {
      var more := SlashesBefore(s[1..]);
      slashes := "/" + more;
      assert s == [s[0]] + s[1..];
    }
  }

  function BarePath(path: string): string {
    match Find(path, "?") case None => path case Some(n) => path[..n]
  }

  lemma BarePathOf(bare: string, query: string)
    requires '?' !in bare && Query(query)
    ensures BarePath(bare + query) == bare
  {
    if query == "" {
      NotFound(bare, '?');
      assert bare + query == bare;
    } else {
      FindChar(bare, '?', query);
    }
  }

  lemma QueryAfter(path: string) returns (query: string)
    ensures path == BarePath(path) + query && Query(query) && '?' !in BarePath(path)
  {
    FoundFirst(path, '?');
    query := path[|BarePath(path)|..];
  }

  lemma FirstPart(s: string, c: char)
    ensures var parts := SplitOn(s, c);
            && parts != [] && c !in parts[0]
            && (if |parts| == 1 then s == parts[0]
                else exists rest :: s == parts[0] + ([c] + rest) && parts[1..] == SplitOn(rest, c))
  {
    FoundFirst(s, c);
    if Find(s, [c]).Some? {
      var n := Find(s, [c]).value;
      assert s == s[..n] + ([c] + s[n + 1..]) && SplitOn(s, c)[1..] == SplitOn(s[n + 1..], c);
      SplitIsNonempty(s[n + 1..], c);
    }
  }

  lemma SplitIsNonempty(s: string, c: char)
    ensures SplitOn(s, c) != []
  {
  }

  lemma ThreeParts(s: string)
    requires |SplitOn(s, '/')| == 3
    ensures var parts := SplitOn(s, '/');
            s == parts[0] + (['/'] + (parts[1] + (['/'] + parts[2]))) && '/' !in parts[1] && '/' !in parts[2]
  {
    FirstPart(s, '/');
    var parts := SplitOn(s, '/');
    var rest :| s == parts[0] + (['/'] + rest) && parts[1..] == SplitOn(rest, '/');
    FirstPart(rest, '/');
    assert parts[1..][0] == parts[1] && parts[1..][1..] == [parts[2]];
    var last :| rest == parts[1] + (['/'] + last) && [parts[2]] == SplitOn(last, '/');
    FirstPart(last, '/');
  }

  lemma RouteIsAccepted(path: string, slashes: string, token: string, resource: string, query: string)
    requires RouteForm(path, slashes, token, resource, query)
    ensures ParseRoute(path) == Some((token, resource))
  {
    var bare := slashes + RouteTail(token, resource);
    assert '?' !in bare by {
      assert forall c <- bare :: c in slashes || c in "hls" || c == '/' || c in token || c in resource;
    }
    BarePathOf(bare, query);
    SlashesAreTrimmed(slashes, RouteTail(token, resource));
    RouteParts(token, resource);
  }

  lemma AcceptedIsRoute(path: string) returns (slashes: string, query: string)
    requires ParseRoute(path).Some?
    ensures RouteForm(path, slashes, ParseRoute(path).value.0, ParseRoute(path).value.1, query)
  {
    query := QueryAfter(path);
    var bare := BarePath(path);
    slashes := SlashesBefore(bare);
    ThreeParts(TrimSlashes(bare));
    var (token, resource) := ParseRoute(path).value;
    assert TrimSlashes(bare) == RouteTail(token, resource);
    assert (forall c <- token :: c in TrimSlashes(bare)) && forall c <- resource :: c in TrimSlashes(bare);
    assert forall c <- TrimSlashes(bare) :: c in bare;
  }

  /** Exactly the paths of that form are routes, and a route names its two segments. */
  lemma RouteIff(path: string, token: string, resource: string)
    ensures ParseRoute(path) == Some((token, resource))
            <==> exists slashes, query :: RouteForm(path, slashes, token, resource, query)
  {
    if ParseRoute(path) == Some((token, resource)) {
      var slashes, query := AcceptedIsRoute(path);
    }
    if slashes, query :| RouteForm(path, slashes, token, resource, query) {
      RouteIsAccepted(path, slashes, token, resource, query);
    }
  }
}
