/** The resumable download loop. The network is a list of exchanges, one per request; the `.part` file
    is a byte sequence. A `Renamed` end is the successful rename to the final name. */
module Download {
  import opened Wrappers
  import opened Text
  import opened Decimal
  import opened ResumeProtocol

  const MAX_RETRIES := 6

  /** What the body stream yields, with the cancel flag as read at that point. */
  datatype BodyEvent =
    | Piece(cancelled: bool, bytes: seq<Byte>)
    | Broken(cancelled: bool, cancelledAtRetry: bool)

  datatype Exchange =
    | SendFailed(cancelled: bool)
    | Reply(status: nat, contentType: string, contentRange: Option<string>, contentLength: Option<nat>,
            body: seq<BodyEvent>, cancelledAtEnd: bool)

  datatype End = Paused | NotMedia | TransportError | Refused | EndedEarly | Renamed(sizeKnown: bool)

  datatype Transfer = Transfer(file: seq<Byte>, received: nat, total: nat, attempt: nat)

  datatype Flow = Going(t: Transfer) | Retrying(t: Transfer) | Stopped(file: seq<Byte>, end: End)

  // ----- recognising documents

  predicate AsciiSpace(b: Byte) {
    b == 32 || b == 9 || b == 10 || b == 12 || b == 13
  }

  function SkipSpaces(bytes: seq<Byte>): seq<Byte> {
    if bytes != [] && AsciiSpace(bytes[0]) then SkipSpaces(bytes[1..]) else bytes
  }

  predicate StartsWith(bytes: seq<Byte>, text: string) {
    |text| <= |bytes| && forall i :: 0 <= i < |text| ==> bytes[i] == text[i] as int
  }

  predicate StartsWithIgnoringCase(bytes: seq<Byte>, text: string) {
    |text| <= |bytes| && forall i :: 0 <= i < |text| ==> LowerAscii(bytes[i] as char) == text[i]
  }

  predicate LooksLikeHls(body: seq<Byte>) {
    StartsWith(SkipSpaces(body), "#EXTM3U")
  }

  predicate LooksLikeDocument(body: seq<Byte>) {
    var text := SkipSpaces(body);
    || StartsWithIgnoringCase(text, "<!doctype html") || StartsWithIgnoringCase(text, "<html")
    || StartsWithIgnoringCase(text, "<head") || StartsWithIgnoringCase(text, "<body")
    || StartsWithIgnoringCase(text, "<?xml")
  }

  /** The media type of a Content-Type header, without parameters. */
  function Mime(value: string): string {
    ToLowerAscii(Trim(match SplitOnce(value, ';') case Some((before, _)) => before case None => value))
  }

  predicate InvalidContentType(value: string) {
    var mime := Mime(value);
    || "text/" <= mime || mime == "application/json" || mime == "application/xml" || mime == "application/dash+xml"
    || mime == "application/vnd.apple.mpegurl" || mime == "application/x-mpegurl"
  }

  /** Bytes that open with anything but white space, `<` or `#` are media. */
  lemma PlainBytesAreMedia(bytes: seq<Byte>)
    requires bytes == [] || (!AsciiSpace(bytes[0]) && bytes[0] != '<' as int && bytes[0] != '#' as int)
    ensures !LooksLikeHls(bytes) && !LooksLikeDocument(bytes)
  {
    assert SkipSpaces(bytes) == bytes;
  }

  lemma {:induction false} SpacesAreSkipped(spaces: seq<Byte>, bytes: seq<Byte>)
    requires (forall b <- spaces :: b == 32 || 9 <= b <= 10 || 12 <= b <= 13) && (bytes == [] || bytes[0] > 32)
    ensures SkipSpaces(spaces + bytes) == bytes
  {
    if spaces == [] {
      assert spaces + bytes == bytes;
    } else {
      assert spaces[0] in spaces && (spaces + bytes)[1..] == spaces[1..] + bytes;
      assert forall b <- spaces[1..] :: b in spaces;
      SpacesAreSkipped(spaces[1..], bytes);
    }
  }

  function AsciiByte(c: char): Byte {
    if c < '\U{80}' then c as int else '?' as int
  }

  function Ascii(text: string): seq<Byte> {
    seq(|text|, i requires 0 <= i < |text| => AsciiByte(text[i]))
  }

  /** A playlist is recognised behind any white space, and so is a page, in any case. */
  lemma DocumentsAreRecognised(spaces: seq<Byte>, text: string, rest: seq<Byte>)
    requires (forall b <- spaces :: b == 32 || 9 <= b <= 10 || 12 <= b <= 13) && (forall c <- text :: c < '\U{80}')
    ensures text == "#EXTM3U" ==> LooksLikeHls(spaces + (Ascii(text) + rest))
    ensures ToLowerAscii(text) in ["<!doctype html", "<html", "<head", "<body", "<?xml"] ==>
              LooksLikeDocument(spaces + (Ascii(text) + rest))
  {
    var bytes := Ascii(text) + rest;
    var lower := ToLowerAscii(text);
    if text == "#EXTM3U" || lower in ["<!doctype html", "<html", "<head", "<body", "<?xml"] {
      assert |text| == |lower| > 0 && lower[0] == LowerAscii(text[0]);
      assert text[0] in text && bytes[0] == text[0] as int;
      SpacesAreSkipped(spaces, bytes);
      forall i | 0 <= i < |text| ensures bytes[i] == text[i] as int && lower[i] == LowerAscii(text[i]) {
        assert text[i] in text;
      }
    }
  }

  /** Parameters, padding and case of a content type do not matter. */
  lemma MimeIsRead(kind: string, parameters: string)
    requires Trimmed(kind) && ';' !in kind
    ensures Mime(kind) == ToLowerAscii(kind) && Mime(kind + " ;" + parameters) == ToLowerAscii(kind)
  {
    assert kind + " ;" + parameters == (kind + " ") + [';'] + parameters;
    assert forall c <- kind + " " :: c != ';';
    SplitOnceAt(kind + " ", ';', parameters);
    TrimSpaceAfter(kind);
    SplitOnceNone(kind, ';');
    TrimmedIsFixed(kind);
  }

  /** Text and JSON are turned away; audio, video and images are not. */
  lemma ContentTypesAreSorted(value: string)
    ensures "text/" <= Mime(value) ==> InvalidContentType(value)
    ensures Mime(value) in ["application/json", "application/xml", "application/dash+xml"] ==> InvalidContentType(value)
    ensures Mime(value) in ["application/vnd.apple.mpegurl", "application/x-mpegurl"] ==> InvalidContentType(value)
    ensures Mime(value) == "" || (Mime(value)[0] != 't' && Mime(value)[0] != 'a') || "audio/" <= Mime(value)
            ==> !InvalidContentType(value)
  {
    assert "audio/" <= Mime(value) ==> Mime(value)[1] == 'u';
    assert "text/" <= Mime(value) ==> Mime(value)[0] == 't';
  }

  // ----- one exchange, on values

  function ReadBody(t: Transfer, body: seq<BodyEvent>, inspect: bool): Flow
    decreases |body|
  {
    if body == [] then Going(t)
    else if body[0].cancelled then Stopped(t.file, Paused)
    else
      match body[0]
      case Piece(_, bytes) =>
        if inspect && (LooksLikeHls(bytes) || LooksLikeDocument(bytes)) then Stopped([], NotMedia)
        else ReadBody(Transfer(t.file + bytes, t.received + |bytes|, t.total, 0), body[1..], false)
      case Broken(_, cancelledAtRetry) =>
        if t.attempt < MAX_RETRIES && !cancelledAtRetry then Retrying(t) else Stopped(t.file, TransportError)
  }

  /** The end of a cleanly finished body. */
  function AfterBody(t: Transfer, cancelled: bool): Flow {
    if t.total == 0 || t.received >= t.total then Stopped(t.file, Renamed(t.total != 0))
    else if t.attempt < MAX_RETRIES && !cancelled then Retrying(t)
    else Stopped(t.file, EndedEarly)
  }

  /** The total a transfer learns from its first appendable answer, if any. */
  function FirstTotal(total: Option<nat>, contentLength: Option<nat>, received: nat): nat {
    if total.Some? then total.value else if contentLength.Some? then contentLength.value + received else 0
  }

  /** The transfer as the body is about to be read. */
  function Prepared(t: Transfer, resume: Resume, contentLength: Option<nat>): Transfer {
    match resume
    case Restart(total) => Transfer([], 0, total.GetOr(0), t.attempt)
    case Append(total) =>
      if t.total != 0 then t
      else t.(total := FirstTotal(total, contentLength, t.received))
    case Complete => t
  }

  /** One turn of the loop: `Going` is the next turn. */
  function Turn(t: Transfer, ex: Exchange): Flow {
    match ex
    case SendFailed(cancelled) =>
      if t.attempt < MAX_RETRIES && !cancelled then Going(t.(attempt := t.attempt + 1))
          else Stopped(t.file, TransportError)
    case Reply(status, contentType, contentRange, contentLength, body, cancelled) =>
      match ClassifyResume(t.received, status, contentRange, contentLength)
      case Failure(_) => Stopped(t.file, Refused)
      case Success(Complete) => Stopped(t.file, Renamed(true))
      case Success(resume) =>
        var t1 := Prepared(t, resume, contentLength);
        if resume.Restart? && status == RANGE_NOT_SATISFIABLE then Going(t1)
        else if t1.received == 0 && InvalidContentType(contentType) then Stopped([], NotMedia)
        else
          var read := ReadBody(t1, body, t1.received == 0);
          var after := if read.Going? then AfterBody(read.t, cancelled) else read;
          if after.Retrying? then Going(after.t.(attempt := after.t.attempt + 1)) else after
  }

  function Run(t: Transfer, world: seq<Exchange>): Flow
    decreases |world|
  {
    if world == [] then Going(t)
    else
      var next := Turn(t, world[0]);
      if next.Going? then Run(next.t, world[1..]) else next
  }

  function Start(part: seq<Byte>): Transfer {
    Transfer(part, |part|, 0, 0)
  }

  // ----- the loop itself

  /** The chunk loop: writes pieces until the stream ends, breaks or is cancelled. */
  method ReadStream(t: Transfer, body: seq<BodyEvent>, sniff: bool) returns (flow: Flow)
    ensures flow == ReadBody(t, body, sniff)
  {
    var file, received, attempt, inspect := t.file, t.received, t.attempt, sniff;
    for j := 0 to |body|
      invariant received >= 0 && attempt >= 0
      invariant ReadBody(t, body, sniff) == ReadBody(Transfer(file, received, t.total, attempt), body[j..], inspect)
    {
      assert body[j..][0] == body[j] && body[j..][1..] == body[j + 1..];
      if body[j].cancelled {
        return Stopped(file, Paused);
      }
      match body[j] {
        case Piece(_, bytes) =>
          if inspect {
            inspect := false;
            if LooksLikeHls(bytes) || LooksLikeDocument(bytes) {
              return Stopped([], NotMedia);
            }
          }
          file := file + bytes;
          received := received + |bytes|;
          attempt := 0;
        case Broken(_, cancelledAtRetry) =>
          return if attempt < MAX_RETRIES && !cancelledAtRetry then Retrying(Transfer(file, received, t.total, attempt))
                 else Stopped(file, TransportError);
      }
    }
    return Going(Transfer(file, received, t.total, attempt));
  }

  /** One request and its answer. */
  method TakeTurn(t: Transfer, ex: Exchange) returns (flow: Flow)
    ensures flow == Turn(t, ex)
  {
    var file, received, total, attempt := t.file, t.received, t.total, t.attempt;
    if ex.SendFailed? {
      if attempt < MAX_RETRIES && !ex.cancelled {
        attempt := attempt + 1;
        return Going(Transfer(file, received, total, attempt));
      }
      return Stopped(file, TransportError);
    }
    var decision := ClassifyResume(received, ex.status, ex.contentRange, ex.contentLength);
    if decision.Failure? {
      return Stopped(file, Refused);
    }
    match decision.value {
      case Complete =>
        return Stopped(file, Renamed(true));
      case Restart(responseTotal) =>
        file, received, total := [], 0, responseTotal.GetOr(0);
        if ex.status == RANGE_NOT_SATISFIABLE {
          return Going(Transfer(file, received, total, attempt));
        }
      case Append(responseTotal) =>
        if total == 0 {
          total := FirstTotal(responseTotal, ex.contentLength, received);
        }
    }
    if received == 0 && InvalidContentType(ex.contentType) {
      return Stopped([], NotMedia);
    }
    flow := ReadStream(Transfer(file, received, total, attempt), ex.body, received == 0);
    if flow.Going? {
      flow := AfterBody(flow.t, ex.cancelledAtEnd);
    }
    if flow.Retrying? {
      flow := Going(flow.t.(attempt := flow.t.attempt + 1));
    }
  }

  /** `end` is `None` when the recorded exchanges ran out while the loop was still going. */
  method RunDownload(part: seq<Byte>, world: seq<Exchange>) returns (file: seq<Byte>, end: Option<End>)
    ensures var run := Run(Start(part), world);
            file == (if run.Stopped? then run.file else run.t.file)
            && end == (if run.Stopped? then Some(run.end) else None)
  {
    var t := Start(part);
    for k := 0 to |world|
      invariant Run(Start(part), world) == Run(t, world[k..])
    {
      assert world[k..][0] == world[k] && world[k..][1..] == world[k + 1..];
      var flow := TakeTurn(t, world[k]);
      if flow.Stopped? {
        return flow.file, Some(flow.end);
      }
      t := flow.t;
    }
    return t.file, None;
  }

  // ----- honest servers

  /** Every byte the body delivers, in order. */
  function Sent(body: seq<BodyEvent>): seq<Byte> {
    if body == [] then [] else (if body[0].Piece? then body[0].bytes else []) + Sent(body[1..])
  }

  function Declared(ex: Exchange): Option<ContentRange>
    requires ex.Reply?
  {
    if ex.contentRange.Some? then ParseContentRange(ex.contentRange.value) else None
  }

  /** The reply is about one fixed content: stated totals are its length, and the body is what the
      status promises, possibly cut short. */
  ghost predicate Honest(content: seq<Byte>, ex: Exchange) {
    ex.Reply? ==>
      && (Declared(ex).Some? ==> Declared(ex).value.total == |content|)
      && (IsSuccess(ex.status) && ex.status != PARTIAL_CONTENT ==>
            Sent(ex.body) <= content && (ex.contentLength.Some? ==> ex.contentLength.value == |content|))
      && (ex.status == PARTIAL_CONTENT && Declared(ex).Some? && Declared(ex).value.start.Some? ==>
            Declared(ex).value.start.value <= |content| && Sent(ex.body) <= content[Declared(ex).value.start.value..])
  }

  ghost predicate Faithful(content: seq<Byte>, t: Transfer) {
    t.file <= content && t.received == |t.file| && (t.total == 0 || t.total == |content|)
  }

  /** What a stop may leave behind: a prefix, and the whole content if it was renamed knowing the size. */
  ghost predicate FaithfulFlow(content: seq<Byte>, f: Flow) {
    match f
    case Stopped(file, end) => file <= content && (end == Renamed(true) ==> file == content)
    case _ => Faithful(content, f.t)
  }

  lemma {:induction false} BodyStaysFaithful(content: seq<Byte>, t: Transfer, body: seq<BodyEvent>, inspect: bool)
    requires Faithful(content, t) && t.file + Sent(body) <= content
    ensures FaithfulFlow(content, ReadBody(t, body, inspect))
    ensures !(ReadBody(t, body, inspect).Stopped? && ReadBody(t, body, inspect).end.Renamed?)
    decreases |body|
  {
    if body != [] && body[0].Piece? {
      var bytes := body[0].bytes;
      var t' := Transfer(t.file + bytes, t.received + |bytes|, t.total, 0);
      assert t.file + Sent(body) == t'.file + Sent(body[1..]);
      assert t'.file <= content;
      BodyStaysFaithful(content, t', body[1..], false);
    }
  }

  lemma PreparedStaysFaithful(content: seq<Byte>, t: Transfer, ex: Exchange)
    requires Faithful(content, t) && ex.Reply? && Honest(content, ex)
    ensures match ClassifyResume(t.received, ex.status, ex.contentRange, ex.contentLength)
            case Failure(_) => true
            case Success(Complete) => t.file == content
            case Success(resume) =>
              var t1 := Prepared(t, resume, ex.contentLength);
              && Faithful(content, t1)
              && (!(resume.Restart? && ex.status == RANGE_NOT_SATISFIABLE) ==> t1.file + Sent(ex.body) <= content)
  {
    var decision := ClassifyResume(t.received, ex.status, ex.contentRange, ex.contentLength);
    if decision.Success? && decision.value.Append? && ex.status == PARTIAL_CONTENT {
      assert t.file == content[..t.received] && content[..t.received] + content[t.received..] == content;
    }
  }

  lemma TurnStaysFaithful(content: seq<Byte>, t: Transfer, ex: Exchange)
    requires Faithful(content, t) && Honest(content, ex)
    ensures FaithfulFlow(content, Turn(t, ex))
  {
    if ex.Reply? {
      PreparedStaysFaithful(content, t, ex);
      var decision := ClassifyResume(t.received, ex.status, ex.contentRange, ex.contentLength);
      if decision.Success? && !decision.value.Complete? {
        var t1 := Prepared(t, decision.value, ex.contentLength);
        if !(decision.value.Restart? && ex.status == RANGE_NOT_SATISFIABLE) {
          BodyStaysFaithful(content, t1, ex.body, t1.received == 0);
        }
      }
    }
  }

  /** Every exchange of the run is honest where it happens. */
  ghost predicate HonestThroughout(content: seq<Byte>, t: Transfer, world: seq<Exchange>)
    decreases |world|
  {
    world != [] ==>
      Honest(content, world[0])
          && (Turn(t, world[0]).Going? ==> HonestThroughout(content, Turn(t, world[0]).t, world[1..]))
  }

  /** Against any honest server the part file is a prefix of the content at every turn, and a rename
      with a known size happens only when the file is the whole content. */
  lemma {:induction false} DownloadIsFaithful(content: seq<Byte>, t: Transfer, world: seq<Exchange>)
    requires Faithful(content, t) && HonestThroughout(content, t, world)
    ensures FaithfulFlow(content, Run(t, world))
    decreases |world|
  {
    if world != [] {
      TurnStaysFaithful(content, t, world[0]);
      if Turn(t, world[0]).Going? {
        DownloadIsFaithful(content, Turn(t, world[0]).t, world[1..]);
      }
    }
  }

  // ----- a finished download is renamed

  /** Only chunks, and nobody cancels. */
  predicate Uncut(body: seq<BodyEvent>) {
    forall e <- body :: e.Piece? && !e.cancelled
  }

  predicate StartsAsMedia(body: seq<BodyEvent>)
    requires Uncut(body)
  {
    body != [] ==> !LooksLikeHls(body[0].bytes) && !LooksLikeDocument(body[0].bytes)
  }

  lemma {:induction false} UncutBodyIsRead(t: Transfer, body: seq<BodyEvent>, inspect: bool)
    requires Uncut(body) && (inspect ==> StartsAsMedia(body))
    ensures ReadBody(t, body, inspect)
            == Going(Transfer(t.file + Sent(body), t.received + |Sent(body)|, t.total,
                              if body == [] then t.attempt else 0))
    decreases |body|
  {
    if body == [] {
      assert t.file + [] == t.file;
    } else {
      assert body[0] in body;
      assert forall e <- body[1..] :: e in body;
      UncutBodyIsRead(Transfer(t.file + body[0].bytes, t.received + |body[0].bytes|, t.total, 0), body[1..], false);
      assert t.file + (body[0].bytes + Sent(body[1..])) == t.file + body[0].bytes + Sent(body[1..]);
    }
  }

  /** A reply the client may append to what it has: any success from the start, or a 206 that starts
      where the part ends. */
  predicate Continues(t: Transfer, ex: Exchange, length: nat) {
    && ex.Reply?
    && (if t.received == 0 && ex.status != PARTIAL_CONTENT then IsSuccess(ex.status)
        else ex.status == PARTIAL_CONTENT && Declared(ex) == Some(ContentRange(Some(t.received), length)))
  }

  /** Whether the client learns the size, now or before. */
  predicate SizeKnown(t: Transfer, ex: Exchange)
    requires ex.Reply?
  {
    t.total != 0 || Declared(ex).Some? || ex.contentLength.Some?
  }

  lemma ContinuingReplyAppends(content: seq<Byte>, t: Transfer, ex: Exchange)
    requires Faithful(content, t) && Honest(content, ex) && Continues(t, ex, |content|)
    ensures var resume := ClassifyResume(t.received, ex.status, ex.contentRange, ex.contentLength);
            && resume.Success? && resume.value.Append?
            && Prepared(t, resume.value, ex.contentLength)
               == t.(total := if SizeKnown(t, ex) then |content| else 0)
  {
  }

  /** The missing bytes arrive uncut: the file is complete and takes its final name. */
  lemma CompleteReplyRenames(content: seq<Byte>, t: Transfer, ex: Exchange)
    requires Faithful(content, t) && Honest(content, ex) && Continues(t, ex, |content|)
    requires Uncut(ex.body) && Sent(ex.body) == content[t.received..]
    requires t.received == 0 ==> !InvalidContentType(ex.contentType) && StartsAsMedia(ex.body)
    ensures Turn(t, ex) == Stopped(content, Renamed(SizeKnown(t, ex) && content != []))
  {
    ContinuingReplyAppends(content, t, ex);
    var t1 := t.(total := if SizeKnown(t, ex) then |content| else 0);
    UncutBodyIsRead(t1, ex.body, t1.received == 0);
    assert t.file == content[..t.received] && content[..t.received] + content[t.received..] == content;
  }

  /** So does the whole content, sent afresh in answer to a resume request. */
  lemma CompleteRestartRenames(content: seq<Byte>, t: Transfer, ex: Exchange)
    requires Faithful(content, t) && t.received > 0 && Honest(content, ex) && ex.Reply? && ex.status == OK
    requires Uncut(ex.body) && Sent(ex.body) == content && StartsAsMedia(ex.body) && !InvalidContentType(ex.contentType)
    ensures Turn(t, ex) == Stopped(content, Renamed(ex.contentLength.Some? && content != []))
  {
    var t1 := Transfer([], 0, ex.contentLength.GetOr(0), t.attempt);
    UncutBodyIsRead(t1, ex.body, true);
    assert [] + content == content;
  }

  /** And so does a 416 that names the length the client has. */
  lemma CompletePartRenames(content: seq<Byte>, t: Transfer, ex: Exchange)
    requires Faithful(content, t) && t.received > 0 && Honest(content, ex) && ex.Reply?
    requires ex.status == RANGE_NOT_SATISFIABLE && Declared(ex) == Some(ContentRange(None, t.received))
    ensures Turn(t, ex) == Stopped(content, Renamed(true))
  {
  }

  lemma {:induction false} RunSplits(t: Transfer, front: seq<Exchange>, rest: seq<Exchange>)
    ensures Run(t, front + rest) == if Run(t, front).Going? then Run(Run(t, front).t, rest) else Run(t, front)
    decreases |front|
  {
    if front == [] {
      assert front + rest == rest;
    } else {
      assert (front + rest)[1..] == front[1..] + rest;
      if Turn(t, front[0]).Going? {
        RunSplits(Turn(t, front[0]).t, front[1..], rest);
      }
    }
  }

  /** Over whole runs: however the download went so far, one uncut reply with the missing bytes ends it
      in the rename of the exact file. */
  lemma DownloadFinishes(content: seq<Byte>, t: Transfer, front: seq<Exchange>, ex: Exchange, rest: seq<Exchange>)
    requires Faithful(content, t) && HonestThroughout(content, t, front) && Run(t, front).Going?
    requires var now := Run(t, front).t;
             && Honest(content, ex) && Continues(now, ex, |content|)
             && Uncut(ex.body) && Sent(ex.body) == content[now.received..]
             && (now.received == 0 ==> !InvalidContentType(ex.contentType) && StartsAsMedia(ex.body))
    ensures Run(t, front + ([ex] + rest)) == Stopped(content, Renamed(SizeKnown(Run(t, front).t, ex) && content != []))
  {
    DownloadIsFaithful(content, t, front);
    RunSplits(t, front, [ex] + rest);
    CompleteReplyRenames(content, Run(t, front).t, ex);
    assert ([ex] + rest)[0] == ex;
  }

  // ----- a download stops only for a reason

  /** The first chunk is a playlist or a web page. */
  predicate DocumentFirst(body: seq<BodyEvent>) {
    body != [] && body[0].Piece? && !body[0].cancelled
    && (LooksLikeHls(body[0].bytes) || LooksLikeDocument(body[0].bytes))
  }

  predicate SomeoneCancels(ex: Exchange) {
    if ex.SendFailed? then ex.cancelled
    else ex.cancelledAtEnd || exists e <- ex.body :: e.cancelled || (e.Broken? && e.cancelledAtRetry)
  }

  lemma {:induction false} BodyStopsForReason(t: Transfer, body: seq<BodyEvent>, inspect: bool)
    ensures var f := ReadBody(t, body, inspect);
            f.Stopped? ==>
              match f.end
              case Paused => t.file <= f.file && exists e <- body :: e.cancelled
              case NotMedia => inspect && DocumentFirst(body)
              case TransportError =>
                && t.file <= f.file
                && ((exists e <- body :: e.Broken? && e.cancelledAtRetry)
                    || (t.attempt >= MAX_RETRIES && body != [] && body[0].Broken?))
              case _ => false
    decreases |body|
  {
    if body != [] {
      assert body[0] in body;
      if body[0].Piece? {
        var t1 := Transfer(t.file + body[0].bytes, t.received + |body[0].bytes|, t.total, 0);
        assert t.file <= t1.file;
        assert forall e <- body[1..] :: e in body;
        BodyStopsForReason(t1, body[1..], false);
      }
    }
  }

  /** Without a cancellation a turn ends the download only in the rename, in a refusal, on a document, or
      when the sixth retry in a row failed; and unless it restarted or met a document, nothing that was
      received is lost. */
  lemma StopsOnlyForReason(t: Transfer, ex: Exchange)
    requires Turn(t, ex).Stopped?
    ensures var f := Turn(t, ex);
            match f.end
            case Renamed(_) => ex.Reply?
            case Refused => ex.Reply? && f.file == t.file
            case NotMedia => ex.Reply? && (InvalidContentType(ex.contentType) || DocumentFirst(ex.body))
            case Paused => SomeoneCancels(ex)
            case TransportError =>
              SomeoneCancels(ex)
              || (t.attempt >= MAX_RETRIES && (ex.SendFailed? || (ex.body != [] && ex.body[0].Broken?)))
            case EndedEarly =>
              ex.Reply? && (ex.cancelledAtEnd || (t.attempt >= MAX_RETRIES && Delivered(ex.body) == []))
  {
    if ex.Reply? {
      var decision := ClassifyResume(t.received, ex.status, ex.contentRange, ex.contentLength);
      if decision.Success? && !decision.value.Complete? {
        var t1 := Prepared(t, decision.value, ex.contentLength);
        BodyStopsForReason(t1, ex.body, t1.received == 0);
        BodyGrows(t1, ex.body, t1.received == 0);
        FreshBudget(ex.body);
      }
    }
  }

  /** A fresh body that is declared as something else, or opens as a playlist or a page, is refused and
      the part is removed. */
  lemma DocumentsAreRefused(t: Transfer, ex: Exchange)
    requires ex.Reply? && (if t.received == 0 then 200 <= ex.status < 300 && ex.status != 206 else ex.status == 200)
    requires InvalidContentType(ex.contentType)
             || (ex.body != [] && ex.body[0].Piece? && !ex.body[0].cancelled
                 && (LooksLikeHls(ex.body[0].bytes) || LooksLikeDocument(ex.body[0].bytes)))
    ensures Turn(t, ex) == Stopped([], NotMedia)
  {
  }

  lemma FreshBudget(body: seq<BodyEvent>)
    ensures body == [] || body[0].Broken? ==> Delivered(body) == []
  {
  }

  lemma {:induction false} BodyKeepsPart(t: Transfer, body: seq<BodyEvent>, inspect: bool)
    ensures var f := ReadBody(t, body, inspect);
            if f.Stopped? then f.end.NotMedia? || t.file <= f.file else t.file <= f.t.file
  {
    BodyStopsForReason(t, body, inspect);
    BodyGrows(t, body, inspect);
  }

  lemma ReceivedIsKept(t: Transfer, ex: Exchange)
    requires t.received == |t.file| && HonoursRange(t.received, ex)
    ensures var f := Turn(t, ex);
            if f.Stopped? then f.end.NotMedia? || t.file <= f.file else t.file <= f.t.file
  {
    if ex.Reply? {
      var decision := ClassifyResume(t.received, ex.status, ex.contentRange, ex.contentLength);
      if decision.Success? && decision.value.Append? {
        var t1 := Prepared(t, decision.value, ex.contentLength);
        BodyKeepsPart(t1, ex.body, t1.received == 0);
      }
    }
  }

  // ----- termination

  /** The bytes a body delivers before it breaks. */
  function Delivered(body: seq<BodyEvent>): seq<Byte> {
    if body == [] || body[0].Broken? then [] else body[0].bytes + Delivered(body[1..])
  }

  /** The reply delivers chunks but no byte: they refill the retry budget and gain nothing. */
  predicate EmptyRefill(ex: Exchange) {
    ex.Reply? && ex.body != [] && ex.body[0].Piece? && Delivered(ex.body) == []
  }

  /** The server honours a resume request instead of starting over. */
  predicate HonoursRange(received: nat, ex: Exchange) {
    ex.Reply? && received > 0 ==>
      && ex.status != OK
      && (ex.status == RANGE_NOT_SATISFIABLE ==> Declared(ex) == Some(ContentRange(None, received)))
  }

  /** Bytes left, then retries left. */
  function Measure(content: seq<Byte>, t: Transfer): int {
    (|content| - |t.file|) * (MAX_RETRIES + 1) + (MAX_RETRIES - t.attempt)
  }

  /** A turn that costs the client what it had: a restart, or an empty refill. */
  predicate BadTurn(received: nat, ex: Exchange) {
    !HonoursRange(received, ex) || EmptyRefill(ex)
  }

  /** A body that was read to its end or to a break added what it delivered. */
  lemma {:induction false} BodyGrows(t: Transfer, body: seq<BodyEvent>, inspect: bool)
    ensures var f := ReadBody(t, body, inspect);
            && (f.Retrying? ==> f.t.attempt < MAX_RETRIES)
            && (!f.Stopped? ==>
                  && f.t.file == t.file + Delivered(body) && f.t.received == t.received + |Delivered(body)|
                  && f.t.total == t.total && f.t.attempt == if body != [] && body[0].Piece? then 0 else t.attempt)
    decreases |body|
  {
    if body != [] && body[0].Piece? {
      BodyGrows(Transfer(t.file + body[0].bytes, t.received + |body[0].bytes|, t.total, 0), body[1..], false);
      assert t.file + (body[0].bytes + Delivered(body[1..])) == t.file + body[0].bytes + Delivered(body[1..]);
    }
  }

  /** Every turn that continues lowers the measure, unless it is a bad one. */
  lemma TurnLowersMeasure(content: seq<Byte>, t: Transfer, ex: Exchange)
    requires Faithful(content, t) && t.attempt <= MAX_RETRIES && Honest(content, ex) && Turn(t, ex).Going?
    ensures Turn(t, ex).t.attempt <= MAX_RETRIES
    ensures 0 <= Measure(content, Turn(t, ex).t)
    ensures !BadTurn(t.received, ex) ==> Measure(content, Turn(t, ex).t) < Measure(content, t)
  {
    TurnStaysFaithful(content, t, ex);
    if ex.Reply? {
      PreparedStaysFaithful(content, t, ex);
      var resume := ClassifyResume(t.received, ex.status, ex.contentRange, ex.contentLength).value;
      var t1 := Prepared(t, resume, ex.contentLength);
      BodyGrows(t1, ex.body, t1.received == 0);
      if !BadTurn(t.received, ex) {
        assert resume.Append? && t1.file == t.file;
        GrownOrRetried(content, t, Turn(t, ex).t);
      }
    }
  }

  /** More bytes outweigh a full retry budget. */
  lemma GrownOrRetried(content: seq<Byte>, t: Transfer, next: Transfer)
    requires |t.file| <= |next.file| && t.attempt <= MAX_RETRIES && next.attempt <= MAX_RETRIES
    requires |t.file| < |next.file| || next.attempt == t.attempt + 1
    ensures Measure(content, next) < Measure(content, t)
  {
  }

  /** How many turns of the run were bad. */
  function BadTurns(t: Transfer, world: seq<Exchange>): nat
    decreases |world|
  {
    if world == [] then 0
    else
      (if BadTurn(t.received, world[0]) then 1 else 0)
      + if Turn(t, world[0]).Going? then BadTurns(Turn(t, world[0]).t, world[1..]) else 0
  }

  /** The measure of a transfer that starts from nothing. */
  function Budget(content: seq<Byte>): nat {
    |content| * (MAX_RETRIES + 1) + MAX_RETRIES
  }

  lemma MeasureWithinBudget(content: seq<Byte>, t: Transfer)
    requires |t.file| <= |content| && t.attempt <= MAX_RETRIES
    ensures 0 <= Measure(content, t) <= Budget(content)
  {
  }

  /** How many requests the run may take: the measure, and a fresh budget for every bad turn. */
  function Allowance(content: seq<Byte>, t: Transfer, world: seq<Exchange>): int {
    Measure(content, t) + BadTurns(t, world) * (Budget(content) + 1)
  }

  lemma AllowanceFalls(now: int, next: int, bad: bool, rest: nat, budget: nat)
    requires 0 <= now && 0 <= next <= budget && (!bad ==> next < now)
    ensures next + rest * (budget + 1) < now + ((if bad then 1 else 0) + rest) * (budget + 1)
  {
    assert (1 + rest) * (budget + 1) == budget + 1 + rest * (budget + 1);
  }

  lemma TurnLowersAllowance(content: seq<Byte>, t: Transfer, world: seq<Exchange>)
    requires Faithful(content, t) && t.attempt <= MAX_RETRIES
    requires world != [] && Honest(content, world[0]) && Turn(t, world[0]).Going?
    ensures Turn(t, world[0]).t.attempt <= MAX_RETRIES
    ensures Allowance(content, Turn(t, world[0]).t, world[1..]) < Allowance(content, t, world)
  {
    var next := Turn(t, world[0]).t;
    TurnStaysFaithful(content, t, world[0]);
    TurnLowersMeasure(content, t, world[0]);
    MeasureWithinBudget(content, t);
    MeasureWithinBudget(content, next);
    AllowanceFalls(Measure(content, t), Measure(content, next), BadTurn(t.received, world[0]),
                   BadTurns(next, world[1..]), Budget(content));
  }

  lemma AllowanceIsPositive(content: seq<Byte>, t: Transfer, world: seq<Exchange>)
    requires Faithful(content, t) && t.attempt <= MAX_RETRIES
    ensures Allowance(content, t, world) >= 0
  {
    MeasureWithinBudget(content, t);
    ProductIsNat(BadTurns(t, world), Budget(content) + 1);
  }

  lemma ProductIsNat(a: nat, b: nat)
    ensures a * b >= 0
  {
  }

  /** Against an honest server the loop ends within a number of requests bounded by the bytes left, the
      retries left and how often the server restarted it or refilled its retries with nothing. So it can
      go on for ever only if bad turns never stop coming. */
  lemma {:induction false} DownloadEnds(content: seq<Byte>, t: Transfer, world: seq<Exchange>)
    requires Faithful(content, t) && t.attempt <= MAX_RETRIES && HonestThroughout(content, t, world)
    requires |world| > Allowance(content, t, world)
    ensures Run(t, world).Stopped?
    decreases |world|
  {
    AllowanceIsPositive(content, t, world);
    if Turn(t, world[0]).Going? {
      TurnStaysFaithful(content, t, world[0]);
      TurnLowersAllowance(content, t, world);
      DownloadEnds(content, Turn(t, world[0]).t, world[1..]);
    }
  }

  /** A server that ignores Range: it restarts from zero, delivers one byte, and breaks; the byte refills
      the retry budget. */
  function IgnoringRange(content: seq<Byte>, contentType: string): Exchange
    requires content != []
  {
    Reply(OK, contentType, None, Some(|content|), [Piece(false, content[..1]), Broken(false, false)], false)
  }

  /** A server that rejects every resume although the part is shorter than the file. */
  function RejectingRange(contentType: string): Exchange {
    Reply(RANGE_NOT_SATISFIABLE, contentType, None, None, [], false)
  }

  /** A server that honours Range, sends an empty chunk and breaks. */
  function RefillingNothing(received: nat, length: nat, contentType: string): Exchange
    requires 0 < length
  {
    Reply(PARTIAL_CONTENT, contentType,
          Some("bytes " + ToDecimal(received) + "-" + ToDecimal(length - 1) + "/" + ToDecimal(length)),
          None, [Piece(false, []), Broken(false, false)], false)
  }

  function Repeat(turns: seq<Exchange>, n: nat): seq<Exchange> {
    if n == 0 then [] else turns + Repeat(turns, n - 1)
  }

  lemma {:induction false} FailuresAddUp(t: Transfer, n: nat)
    ensures Run(t, Repeat([SendFailed(false)], n))
            == if n == 0 || t.attempt + n <= 6 then Going(t.(attempt := t.attempt + n))
               else Stopped(t.file, TransportError)
    decreases n
  {
    if n > 0 {
      assert Repeat([SendFailed(false)], n)[0] == SendFailed(false);
      assert Repeat([SendFailed(false)], n)[1..] == Repeat([SendFailed(false)], n - 1);
      if t.attempt < 6 {
        FailuresAddUp(t.(attempt := t.attempt + 1), n - 1);
      }
    }
  }

  /** A new download survives six failed requests in a row, keeping its part; the seventh ends it. */
  lemma SixFailuresAreRetried(part: seq<Byte>, n: nat)
    ensures var flow := Run(Start(part), Repeat([SendFailed(false)], n));
            if n <= 6 then flow.Going? && flow.t.file == part else flow == Stopped(part, TransportError)
  {
    FailuresAddUp(Start(part), n);
  }

  lemma OneByteIsNoDocument(first: seq<Byte>)
    requires |first| == 1
    ensures !LooksLikeHls(first) && !LooksLikeDocument(first)
  {
    assert SkipSpaces(first) == first || SkipSpaces(first) == [] by { assert first[1..] == []; }
  }

  lemma IgnoredRangeBody(content: seq<Byte>, contentType: string, attempt: nat)
    requires content != []
    ensures ReadBody(Transfer([], 0, |content|, attempt), IgnoringRange(content, contentType).body, true)
            == Retrying(Transfer(content[..1], 1, |content|, 0))
    ensures Honest(content, IgnoringRange(content, contentType))
  {
    var body, first := IgnoringRange(content, contentType).body, content[..1];
    OneByteIsNoDocument(first);
    assert body[1..] == [Broken(false, false)] && [] + first == first;
    assert body[1..][1..] == [] && Sent(body[1..]) == [] + [] && first + [] == first;
  }

  /** The first never-ending family: a 200 answers every resume. */
  lemma {:induction false} IgnoredRangeNeverEnds(content: seq<Byte>, contentType: string, t: Transfer, n: nat)
    requires content != [] && !InvalidContentType(contentType)
    requires t == Start([]) || t == Transfer(content[..1], 1, |content|, 1)
    ensures Honest(content, IgnoringRange(content, contentType))
    ensures Run(t, Repeat([IgnoringRange(content, contentType)], n)).Going?
    decreases n
  {
    var ex := IgnoringRange(content, contentType);
    IgnoredRangeBody(content, contentType, t.attempt);
    if n > 0 {
      var next := Transfer(content[..1], 1, |content|, 1);
      assert Turn(t, ex) == Going(next);
      IgnoredRangeNeverEnds(content, contentType, next, n - 1);
      assert Repeat([ex], n)[1..] == Repeat([ex], n - 1);
    }
  }

  /** The second: a 416 answers every resume, and the fresh start it forces delivers one byte. */
  lemma {:induction false} RejectedRangeNeverEnds(content: seq<Byte>, contentType: string, n: nat)
    requires content != [] && !InvalidContentType(contentType)
    ensures Honest(content, RejectingRange(contentType)) && Honest(content, IgnoringRange(content, contentType))
    ensures Run(Transfer(content[..1], 1, |content|, 1),
                Repeat([RejectingRange(contentType), IgnoringRange(content, contentType)], n)).Going?
    decreases n
  {
    var t, reject, restart := Transfer(content[..1], 1, |content|, 1), RejectingRange(contentType),
        IgnoringRange(content, contentType);
    IgnoredRangeBody(content, contentType, 1);
    if n > 0 {
      var world := Repeat([reject, restart], n);
      assert Turn(t, reject) == Going(Transfer([], 0, 0, 1));
      assert Turn(Transfer([], 0, 0, 1), restart) == Going(t);
      assert world[1..][0] == restart && world[1..][1..] == Repeat([reject, restart], n - 1);
      RejectedRangeNeverEnds(content, contentType, n - 1);
    }
  }

  lemma {:induction false} LoopNeverEnds(t: Transfer, ex: Exchange, n: nat)
    requires Turn(t, ex) == Going(t)
    ensures Run(t, Repeat([ex], n)) == Going(t)
    decreases n
  {
    if n > 0 {
      assert Repeat([ex], n)[1..] == Repeat([ex], n - 1);
      LoopNeverEnds(t, ex, n - 1);
    }
  }

  lemma RefillingNothingIsHonest(content: seq<Byte>, received: nat, contentType: string)
    requires 0 < received < |content| < 0x1_0000_0000_0000_0000
    ensures var ex := RefillingNothing(received, |content|, contentType);
            && Declared(ex) == Some(ContentRange(Some(received), |content|)) && ex.body[1..] == [Broken(false, false)]
            && Honest(content, ex) && HonoursRange(received, ex) && EmptyRefill(ex)
  {
    var ex := RefillingNothing(received, |content|, contentType);
    SatisfiedRangeReadsBack(received, |content| - 1, |content|);
    assert ex.body[1..] == [Broken(false, false)];
    SentNothing(ex.body);
  }

  lemma SentNothing(body: seq<BodyEvent>)
    requires body == [Piece(false, []), Broken(false, false)]
    ensures Sent(body) == [] && Delivered(body) == []
  {
    assert body[1..] == [Broken(false, false)] && body[1..][1..] == [];
    assert Sent(body[1..]) == [] + [];
  }

  lemma RefillingNothingLoops(content: seq<Byte>, received: nat, contentType: string)
    requires 0 < received < |content| < 0x1_0000_0000_0000_0000
    ensures var t := Transfer(content[..received], received, |content|, 1);
            Turn(t, RefillingNothing(received, |content|, contentType)) == Going(t)
  {
    RefillingNothingIsHonest(content, received, contentType);
    assert content[..received] + [] == content[..received];
  }

  /** The third honours Range, but its chunks are empty. */
  lemma EmptyRefillNeverEnds(content: seq<Byte>, received: nat, contentType: string, n: nat)
    requires 0 < received < |content| < 0x1_0000_0000_0000_0000
    ensures var ex := RefillingNothing(received, |content|, contentType);
            && Honest(content, ex) && HonoursRange(received, ex)
            && Run(Transfer(content[..received], received, |content|, 1), Repeat([ex], n)).Going?
  {
    RefillingNothingIsHonest(content, received, contentType);
    RefillingNothingLoops(content, received, contentType);
    LoopNeverEnds(Transfer(content[..received], received, |content|, 1),
                  RefillingNothing(received, |content|, contentType), n);
  }

  // ----- against this project's own range server

  /** The reply `ServeFile` gives to the client's request, its body cut anywhere into pieces. */
  ghost predicate ServedBy(content: seq<Byte>, received: nat, ex: Exchange)
    requires |content| < 0x1_0000_0000_0000_0000
  {
    ex.Reply? ==>
      var a := ServeFile(ResumeHeader(received), content);
      && ex.status == a.status && ex.contentRange == a.contentRange && ex.contentLength == a.contentLength
      && Sent(ex.body) <= a.body
  }

  /** The range server is honest and never restarts a download, so `DownloadIsFaithful` and
      `DownloadEnds` apply to it. */
  lemma RangeServerCooperates(content: seq<Byte>, received: nat, ex: Exchange)
    requires received <= |content| < 0x1_0000_0000_0000_0000 && ServedBy(content, received, ex)
    ensures Honest(content, ex) && HonoursRange(received, ex)
  {
    if ex.Reply? {
      ServerAndClientCompose(content, received);
      OpenRangeParses(received, |content|);
      if 0 < received < |content| {
        SatisfiedRangeReadsBack(received, |content| - 1, |content|);
      } else {
        UnsatisfiedRangeReadsBack(|content|);
      }
    }
  }

  ghost predicate ServedThroughout(content: seq<Byte>, t: Transfer, world: seq<Exchange>)
    requires |content| < 0x1_0000_0000_0000_0000
    decreases |world|
  {
    world != [] ==>
      && ServedBy(content, t.received, world[0])
      && (Turn(t, world[0]).Going? ==> ServedThroughout(content, Turn(t, world[0]).t, world[1..]))
  }

  lemma {:induction false} ReadBodyKeepsTotal(t: Transfer, body: seq<BodyEvent>, inspect: bool)
    ensures var f := ReadBody(t, body, inspect);
            if f.Stopped? then !f.end.Renamed? else f.t.total == t.total
    decreases |body|
  {
    if body != [] && body[0].Piece? {
      ReadBodyKeepsTotal(Transfer(t.file + body[0].bytes, t.received + |body[0].bytes|, t.total, 0), body[1..], false);
    }
  }

  lemma ServedRenameIsComplete(content: seq<Byte>, t: Transfer, ex: Exchange)
    requires |content| < 0x1_0000_0000_0000_0000 && Faithful(content, t) && ServedBy(content, t.received, ex)
    ensures Turn(t, ex).Stopped? && Turn(t, ex).end.Renamed? ==> Turn(t, ex).file == content
  {
    RangeServerCooperates(content, t.received, ex);
    TurnStaysFaithful(content, t, ex);
    if ex.Reply? {
      ServerAndClientCompose(content, t.received);
      var resume := ClassifyResume(t.received, ex.status, ex.contentRange, ex.contentLength).value;
      if resume.Append? {
        RenameKnowsTotal(t, ex, resume);
      }
    }
  }

  /** A rename after a body was appended knew its total if the transfer did when the body began. */
  lemma RenameKnowsTotal(t: Transfer, ex: Exchange, resume: Resume)
    requires ex.Reply? && ClassifyResume(t.received, ex.status, ex.contentRange, ex.contentLength) == Success(resume)
        && resume.Append?
    ensures Turn(t, ex).Stopped? && Turn(t, ex).end.Renamed?
        ==> Turn(t, ex).end == Renamed(Prepared(t, resume, ex.contentLength).total != 0)
  {
    var t1 := Prepared(t, resume, ex.contentLength);
    ReadBodyKeepsTotal(t1, ex.body, t1.received == 0);
  }

  lemma {:induction false} ServedIsHonest(content: seq<Byte>, t: Transfer, world: seq<Exchange>)
    requires |content| < 0x1_0000_0000_0000_0000 && Faithful(content, t) && ServedThroughout(content, t, world)
    ensures HonestThroughout(content, t, world)
    decreases |world|
  {
    if world != [] {
      RangeServerCooperates(content, t.received, world[0]);
      if Turn(t, world[0]).Going? {
        TurnStaysFaithful(content, t, world[0]);
        ServedIsHonest(content, Turn(t, world[0]).t, world[1..]);
      }
    }
  }

  lemma {:induction false} ServedRenamesExactly(content: seq<Byte>, t: Transfer, world: seq<Exchange>)
    requires |content| < 0x1_0000_0000_0000_0000 && Faithful(content, t) && ServedThroughout(content, t, world)
    ensures Run(t, world).Stopped? && Run(t, world).end.Renamed? ==> Run(t, world).file == content
    decreases |world|
  {
    if world != [] {
      ServedRenameIsComplete(content, t, world[0]);
      if Turn(t, world[0]).Going? {
        RangeServerCooperates(content, t.received, world[0]);
        TurnStaysFaithful(content, t, world[0]);
        ServedRenamesExactly(content, Turn(t, world[0]).t, world[1..]);
      }
    }
  }

  /** End to end: from any prefix on disk, with connections breaking anywhere, a download from the
      range server ends within a bounded number of requests (more only for replies that deliver empty
      chunks), and if it renames, the file is exact. */
  lemma DownloadFromRangeServer(content: seq<Byte>, t: Transfer, world: seq<Exchange>)
    requires |content| < 0x1_0000_0000_0000_0000
    requires Faithful(content, t) && t.attempt <= MAX_RETRIES && ServedThroughout(content, t, world)
    ensures FaithfulFlow(content, Run(t, world))
    ensures Run(t, world).Stopped? && Run(t, world).end.Renamed? ==> Run(t, world).file == content
    ensures |world| > Allowance(content, t, world) ==> Run(t, world).Stopped?
    ensures BadTurns(t, world) == EmptyRefills(t, world)
  {
    ServedIsHonest(content, t, world);
    DownloadIsFaithful(content, t, world);
    ServedRenamesExactly(content, t, world);
    OnlyEmptyRefills(content, t, world);
    if |world| > Allowance(content, t, world) {
      DownloadEnds(content, t, world);
    }
  }

  function EmptyRefills(t: Transfer, world: seq<Exchange>): nat
    decreases |world|
  {
    if world == [] then 0
    else
      (if EmptyRefill(world[0]) then 1 else 0)
      + if Turn(t, world[0]).Going? then EmptyRefills(Turn(t, world[0]).t, world[1..]) else 0
  }

  lemma {:induction false} OnlyEmptyRefills(content: seq<Byte>, t: Transfer, world: seq<Exchange>)
    requires |content| < 0x1_0000_0000_0000_0000 && Faithful(content, t) && ServedThroughout(content, t, world)
    ensures BadTurns(t, world) == EmptyRefills(t, world)
    decreases |world|
  {
    if world != [] {
      RangeServerCooperates(content, t.received, world[0]);
      if Turn(t, world[0]).Going? {
        TurnStaysFaithful(content, t, world[0]);
        OnlyEmptyRefills(content, Turn(t, world[0]).t, world[1..]);
      }
    }
  }

  /** One uncut reply of the range server, from any prefix on disk, ends the download in the rename. */
  lemma OneServedReplyFinishes(content: seq<Byte>, t: Transfer, ex: Exchange, rest: seq<Exchange>)
    requires |content| < 0x1_0000_0000_0000_0000 && Faithful(content, t) && ServedBy(content, t.received, ex)
    requires ex.Reply? && Uncut(ex.body) && Sent(ex.body) == ServeFile(ResumeHeader(t.received), content).body
    requires t.received == 0 ==> !InvalidContentType(ex.contentType) && StartsAsMedia(ex.body)
    ensures Run(t, [ex] + rest) == Stopped(content, Renamed(content != []))
  {
    ServedReplyIs(content, t.received, ex);
    assert ([ex] + rest)[0] == ex;
    if 0 < t.received == |content| {
      CompletePartRenames(content, t, ex);
    } else {
      CompleteReplyRenames(content, t, ex);
    }
  }

  lemma ServedReplyIs(content: seq<Byte>, received: nat, ex: Exchange)
    requires received <= |content| < 0x1_0000_0000_0000_0000 && ServedBy(content, received, ex) && ex.Reply?
    ensures Honest(content, ex)
    ensures if received == 0 then ex.status == OK && ex.contentLength == Some(|content|)
            else if received < |content|
            then ex.status == PARTIAL_CONTENT && Declared(ex) == Some(ContentRange(Some(received), |content|))
            else ex.status == RANGE_NOT_SATISFIABLE && Declared(ex) == Some(ContentRange(None, received))
    ensures ServeFile(ResumeHeader(received), content).body
            == if 0 < received == |content| then [] else content[received..]
  {
    RangeServerCooperates(content, received, ex);
    ServerAndClientCompose(content, received);
    OpenRangeParses(received, |content|);
    if 0 < received < |content| {
      SatisfiedRangeReadsBack(received, |content| - 1, |content|);
    } else {
      UnsatisfiedRangeReadsBack(|content|);
    }
  }
}
