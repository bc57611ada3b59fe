/** Both ends of a resumable transfer: the byte-range server (sections 14.1.2, 14.4 and 15.5.17 of
    RFC 9110) and the client's classification of the answer to a resume request. */
module ResumeProtocol {
  import opened Wrappers
  import opened Text
  import opened Decimal

  // ----- the server: one byte range

  datatype ByteRange = ByteRange(start: nat, end: nat)

  datatype Rejected = Rejected

  function Min(a: nat, b: nat): nat {
    if a < b then a else b
  }

  function SaturatingSub(a: nat, b: nat): nat {
    if a < b then 0 else a - b
  }

  /** `u64::saturating_add(1)`. */
  function SaturatingSucc(a: nat): nat
    requires a < U64_LIMIT
  {
    if a + 1 == U64_LIMIT then a else a + 1
  }

  function ParseByteRange(value: Option<string>, length: nat): Result<Option<ByteRange>, Rejected> {
    if value.None? then Success(None)
    else
      match StripPrefix(Trim(value.value), "bytes=")
      case None => Failure(Rejected)
      case Some(spec) =>
        if ',' in spec then Failure(Rejected)
        else
          match SplitOnce(spec, '-')
          case None => Failure(Rejected)
          case Some((start, end)) => if length == 0 then Failure(Rejected) else ParseBounds(start, end, length)
  }

  function ParseBounds(start: string, end: string, length: nat): Result<Option<ByteRange>, Rejected> {
    if start == "" then
      match ParseU64(end)
      case None => Failure(Rejected)
      case Some(suffix) =>
        if suffix == 0 then Failure(Rejected) else Success(Some(ByteRange(SaturatingSub(length, suffix), length)))
    else
      match ParseU64(start)
      case None => Failure(Rejected)
      case Some(from) =>
        if from >= length then Failure(Rejected)
        else if end == "" then Success(Some(ByteRange(from, length)))
        else
          match ParseU64(end)
          case None => Failure(Rejected)
          case Some(last) =>
            var to := Min(SaturatingSucc(last), length);
            if to <= from then Failure(Rejected) else Success(Some(ByteRange(from, to)))
  }

  /** Every accepted range is nonempty and inside the file. */
  lemma AcceptedRangeIsInside(value: Option<string>, length: nat)
    requires length < U64_LIMIT
    ensures var r := ParseByteRange(value, length);
            r.Success? && r.value.Some? ==> r.value.value.start < r.value.value.end <= length
  {
  }

  /** A header that ends in a visible character is read past its prefix. */
  lemma HeaderStrips(prefix: string, tail: string)
    requires prefix != "" && tail != "" && !IsWhitespace(prefix[0]) && !IsWhitespace(tail[|tail| - 1])
    ensures StripPrefix(Trim(prefix + tail), prefix) == Some(tail)
  {
    assert (prefix + tail)[0] == prefix[0] && (prefix + tail)[|prefix + tail| - 1] == tail[|tail| - 1];
    TrimmedIsFixed(prefix + tail);
    assert (prefix + tail)[|prefix|..] == tail;
  }

  lemma DigitsAreVisible(s: string)
    requires AllDigits(s) && s != ""
    ensures IsDigit(s[|s| - 1]) && !IsWhitespace(s[|s| - 1])
  {
    assert s[|s| - 1] in s;
  }

  lemma SpecSplits(start: string, end: string, length: nat)
    requires AllDigits(start) && AllDigits(end) && length > 0
    ensures ParseByteRange(Some("bytes=" + start + "-" + end), length) == ParseBounds(start, end, length)
  {
    var spec := start + ['-'] + end;
    assert "bytes=" + start + "-" + end == "bytes=" + spec;
    if end != "" {
      DigitsAreVisible(end);
    }
    HeaderStrips("bytes=", spec);
    SplitOnceAt(start, '-', end);
    assert ',' !in spec;
  }

  lemma PrintedNumber(n: nat)
    requires n < U64_LIMIT
    ensures AllDigits(ToDecimal(n)) && ToDecimal(n) != "" && ParseU64(ToDecimal(n)) == Some(n)
  {
    ToDecimalValue(n);
    ParseInvertsPrint(n);
  }

  /** What each printed form of the header asks for; `last` is inclusive on the wire and clipped. */
  lemma PrintedOpenRange(first: nat, length: nat)
    requires first < U64_LIMIT && 0 < length < U64_LIMIT
    ensures ParseByteRange(Some("bytes=" + ToDecimal(first) + "-"), length)
            == if first < length then Success(Some(ByteRange(first, length))) else Failure(Rejected)
  {
    PrintedNumber(first);
    SpecSplits(ToDecimal(first), "", length);
    assert "bytes=" + ToDecimal(first) + "-" + "" == "bytes=" + ToDecimal(first) + "-";
  }

  lemma PrintedClosedRange(first: nat, last: nat, length: nat)
    requires first < U64_LIMIT && last < U64_LIMIT && 0 < length < U64_LIMIT
    ensures ParseByteRange(Some("bytes=" + ToDecimal(first) + "-" + ToDecimal(last)), length)
            == if first < length && first <= last then Success(Some(ByteRange(first, Min(last + 1, length))))
                else Failure(Rejected)
  {
    PrintedNumber(first);
    PrintedNumber(last);
    SpecSplits(ToDecimal(first), ToDecimal(last), length);
  }

  lemma PrintedSuffixRange(last: nat, length: nat)
    requires last < U64_LIMIT && 0 < length < U64_LIMIT
    ensures ParseByteRange(Some("bytes=-" + ToDecimal(last)), length)
            == if last > 0 then Success(Some(ByteRange(SaturatingSub(length, last), length))) else Failure(Rejected)
  {
    PrintedNumber(last);
    SpecSplits("", ToDecimal(last), length);
    assert "bytes=" + "" + "-" + ToDecimal(last) == "bytes=-" + ToDecimal(last);
  }

  // ----- the server: the response

  /** The Range header of a request; `Unreadable` is one that is not visible ASCII. */
  datatype RangeHeader = NoRange | Unreadable | Range(text: string)

  /** `body` is what the response would send if nothing cut it short. */
  datatype Answer = Answer(status: nat, contentRange: Option<string>, contentLength: Option<nat>, body: seq<Byte>)

  const OK := 200
  const PARTIAL_CONTENT := 206
  const RANGE_NOT_SATISFIABLE := 416

  function ServeFile(header: RangeHeader, content: seq<Byte>): Answer
    requires |content| < U64_LIMIT
  {
    var parsed := match header
      case NoRange => ParseByteRange(None, |content|)
      case Unreadable => Failure(Rejected)
      case Range(text) => ParseByteRange(Some(text), |content|);
    match parsed
    case Failure(_) => Answer(RANGE_NOT_SATISFIABLE, Some("bytes */" + ToDecimal(|content|)), None, [])
    case Success(None) => Answer(OK, None, Some(|content|), content)
    case Success(Some(r)) =>
      AcceptedRangeIsInside(if header.Range? then Some(header.text) else None, |content|);
      Answer(PARTIAL_CONTENT,
             Some("bytes " + ToDecimal(r.start) + "-" + ToDecimal(SaturatingSub(r.end, 1)) + "/"
                  + ToDecimal(|content|)),
             Some(SaturatingSub(r.end, r.start)),
             content[r.start..r.end])
  }

  /** Anything but one range of bytes is refused, and so is every range of an empty file. */
  lemma MalformedIsRejected(value: string, length: nat)
    requires !("bytes=" <= Trim(value)) || ',' in Trim(value) || '-' !in Trim(value) || length == 0
    ensures ParseByteRange(Some(value), length) == Failure(Rejected)
  {
    if "bytes=" <= Trim(value) {
      var spec := Trim(value)[6..];
      assert Trim(value) == "bytes=" + spec;
      SplitOnceNone(spec, '-');
    }
  }

  /** A closed range of a file is answered with exactly those bytes, clipped to its end. */
  lemma ClosedRangeIsServed(content: seq<Byte>, first: nat, last: nat)
    requires first <= last < U64_LIMIT && first < |content| < U64_LIMIT
    ensures var end := Min(last + 1, |content|);
            ServeFile(Range("bytes=" + ToDecimal(first) + "-" + ToDecimal(last)), content)
            == Answer(206, Some("bytes " + ToDecimal(first) + "-" + ToDecimal(end - 1) + "/" + ToDecimal(|content|)),
                      Some(end - first), content[first..end])
  {
    PrintedClosedRange(first, last, |content|);
  }

  /** A suffix range is answered with the last bytes, all of them if there are fewer. */
  lemma SuffixRangeIsServed(content: seq<Byte>, last: nat)
    requires 0 < last < U64_LIMIT && 0 < |content| < U64_LIMIT
    ensures var from: nat := if last < |content| then |content| - last else 0;
            ServeFile(Range("bytes=-" + ToDecimal(last)), content)
            == Answer(206, Some("bytes " + ToDecimal(from) + "-" + ToDecimal(|content| - 1) + "/"
                                + ToDecimal(|content|)),
                      Some(|content| - from), content[from..])
  {
    PrintedSuffixRange(last, |content|);
  }

  /** A request without a range gets the whole file, and one that cannot be satisfied the file's length. */
  lemma WholeOrNothing(content: seq<Byte>, header: string)
    requires |content| < U64_LIMIT
    ensures ServeFile(NoRange, content) == Answer(200, None, Some(|content|), content)
    ensures ServeFile(Unreadable, content) == Answer(416, Some("bytes */" + ToDecimal(|content|)), None, [])
    ensures ParseByteRange(Some(header), |content|).Failure?
            ==> ServeFile(Range(header), content) == ServeFile(Unreadable, content)
  {
  }

  // ----- the client

  datatype ContentRange = ContentRange(start: Option<nat>, total: nat)

  function ParseContentRange(value: string): Option<ContentRange> {
    match StripPrefix(Trim(value), "bytes ")
    case None => None
    case Some(rest) =>
      match SplitOnce(rest, '/')
      case None => None
      case Some((range, totalText)) =>
        match ParseU64(totalText)
        case None => None
        case Some(total) => ParseInterval(range, total)
  }

  function ParseInterval(range: string, total: nat): Option<ContentRange> {
    if range == "*" then Some(ContentRange(None, total))
    else
      match SplitOnce(range, '-')
      case None => None
      case Some((startText, endText)) =>
        var start, end := ParseU64(startText), ParseU64(endText);
        if start.Some? && end.Some? && start.value <= end.value < total
        then Some(ContentRange(start, total)) else None
  }

  datatype Resume = Append(total: Option<nat>) | Restart(total: Option<nat>) | Complete
  datatype ResumeError = HttpError | UnexpectedStatus | MissingContentRange | WrongStart

  predicate IsSuccess(status: nat) {
    200 <= status < 300
  }

  function ClassifyResume(received: nat, status: nat, contentRange: Option<string>, contentLength: Option<nat>)
    : Result<Resume, ResumeError>
  {
    var parsed := if contentRange.Some? then ParseContentRange(contentRange.value) else None;
    if received == 0 then
      if !IsSuccess(status) then Failure(HttpError)
      else if status == PARTIAL_CONTENT && !(parsed.Some? && parsed.value.start == Some(0))
          then Failure(MissingContentRange)
      else Success(Append(if parsed.Some? then Some(parsed.value.total) else contentLength))
    else if status == PARTIAL_CONTENT then
      if parsed.Some? && parsed.value.start.Some? then
        if parsed.value.start.value == received then Success(Append(Some(parsed.value.total))) else Failure(WrongStart)
      else Failure(MissingContentRange)
    else if status == OK then Success(Restart(contentLength))
    else if status == RANGE_NOT_SATISFIABLE then
      if parsed == Some(ContentRange(None, received)) then Success(Complete) else Success(Restart(None))
    else if IsSuccess(status) then Failure(UnexpectedStatus)
    else Failure(HttpError)
  }

  /** The Range header the client sends. */
  function ResumeHeader(received: nat): RangeHeader {
    if received > 0 then Range("bytes=" + ToDecimal(received) + "-") else NoRange
  }

  // ----- composition

  /** Only a partial answer that starts where the file ends may be appended to it, and only an
      unsatisfiable one that names its length completes it. */
  lemma ResumeNeedsItsRange(received: nat, start: nat, end: nat, total: nat, length: Option<nat>)
    requires 0 < received && start <= end < total < U64_LIMIT
    ensures var range := "bytes " + ToDecimal(start) + "-" + ToDecimal(end) + "/" + ToDecimal(total);
            && ClassifyResume(received, 206, Some(range), length)
               == (if start == received then Success(Append(Some(total))) else Failure(WrongStart))
            && ClassifyResume(received, 206, None, length) == Failure(MissingContentRange)
            && ClassifyResume(received, 200, Some(range), length) == Success(Restart(length))
            && ClassifyResume(received, 416, Some("bytes */" + ToDecimal(total)), length)
               == Success(if total == received then Complete else Restart(None))
    ensures forall status: nat :: status != 200 && status != 206 && status != 416 ==>
              ClassifyResume(received, status, None, length)
              == Failure(if 200 <= status < 300 then UnexpectedStatus else HttpError)
  {
    SatisfiedRangeReadsBack(start, end, total);
    UnsatisfiedRangeReadsBack(total);
  }

  /** The first request of a download takes any successful answer from the start of the file. */
  lemma FirstAnswerIsTaken(start: nat, end: nat, total: nat, status: nat, length: Option<nat>)
    requires start <= end < total < U64_LIMIT
    ensures var range := "bytes " + ToDecimal(start) + "-" + ToDecimal(end) + "/" + ToDecimal(total);
            && ClassifyResume(0, 206, Some(range), length)
               == (if start == 0 then Success(Append(Some(total))) else Failure(MissingContentRange))
            && ClassifyResume(0, 206, None, length) == Failure(MissingContentRange)
    ensures status != 206 ==> ClassifyResume(0, status, None, length)
                              == if 200 <= status < 300 then Success(Append(length)) else Failure(HttpError)
  {
    SatisfiedRangeReadsBack(start, end, total);
  }

  lemma ContentRangeSplits(range: string, total: nat)
    requires '/' !in range && total < U64_LIMIT
    ensures ParseContentRange("bytes " + range + "/" + ToDecimal(total)) == ParseInterval(range, total)
  {
    var rest := range + ['/'] + ToDecimal(total);
    PrintedNumber(total);
    DigitsAreVisible(ToDecimal(total));
    assert "bytes " + range + "/" + ToDecimal(total) == "bytes " + rest;
    HeaderStrips("bytes ", rest);
    SplitOnceAt(range, '/', ToDecimal(total));
  }

  lemma UnsatisfiedRangeReadsBack(total: nat)
    requires total < U64_LIMIT
    ensures ParseContentRange("bytes */" + ToDecimal(total)) == Some(ContentRange(None, total))
  {
    assert "bytes */" + ToDecimal(total) == "bytes " + "*" + "/" + ToDecimal(total);
    ContentRangeSplits("*", total);
  }

  lemma IntervalSplits(start: string, end: string, total: nat)
    requires AllDigits(start) && AllDigits(end)
    ensures ParseInterval(start + "-" + end, total)
            == var a, b := ParseU64(start), ParseU64(end);
               if a.Some? && b.Some? && a.value <= b.value < total then Some(ContentRange(a, total)) else None
  {
    var range := start + ['-'] + end;
    SplitOnceAt(start, '-', end);
    assert range[|start|] == '-';
  }

  lemma PrintedInterval(start: nat, end: nat, total: nat)
    requires start < U64_LIMIT && end < U64_LIMIT
    ensures '/' !in ToDecimal(start) + "-" + ToDecimal(end)
    ensures ParseInterval(ToDecimal(start) + "-" + ToDecimal(end), total)
            == if start <= end < total then Some(ContentRange(Some(start), total)) else None
  {
    PrintedNumber(start);
    PrintedNumber(end);
    IntervalSplits(ToDecimal(start), ToDecimal(end), total);
  }

  /** A printed range reads back, and is refused if it is reversed or reaches past its own total. */
  lemma SatisfiedRangeReadsBack(start: nat, end: nat, total: nat)
    requires start < U64_LIMIT && end < U64_LIMIT && total < U64_LIMIT
    ensures ParseContentRange("bytes " + ToDecimal(start) + "-" + ToDecimal(end) + "/" + ToDecimal(total))
            == if start <= end < total then Some(ContentRange(Some(start), total)) else None
  {
    var range := ToDecimal(start) + "-" + ToDecimal(end);
    PrintedInterval(start, end, total);
    ContentRangeSplits(range, total);
    Regroup("bytes ", ToDecimal(start), "-", ToDecimal(end));
  }

  /** Server and client agree for every file and every local length: the rest is appended, a complete
      part is recognised, an oversized one restarts. */
  lemma ServerAndClientCompose(content: seq<Byte>, received: nat)
    requires |content| < U64_LIMIT && received < U64_LIMIT
    ensures var a := ServeFile(ResumeHeader(received), content);
            && ClassifyResume(received, a.status, a.contentRange, a.contentLength)
               == Success(if received == 0 || received < |content| then Append(Some(|content|))
                          else if received == |content| then Complete else Restart(None))
            && a.body == if received == 0 || received < |content| then content[received..] else []
  {
    if received > 0 {
      OpenRangeParses(received, |content|);
      if received < |content| {
        SatisfiedAnswerAppends(received, content);
      } else {
        UnsatisfiedRangeReadsBack(|content|);
      }
    }
  }

  lemma SatisfiedAnswer(received: nat, content: seq<Byte>)
    requires 0 < received < |content| < U64_LIMIT
    requires ParseByteRange(Some("bytes=" + ToDecimal(received) + "-"), |content|)
        == Success(Some(ByteRange(received, |content|)))
    ensures ServeFile(ResumeHeader(received), content)
            == Answer(PARTIAL_CONTENT,
                      Some("bytes " + ToDecimal(received) + "-" + ToDecimal(|content| - 1) + "/"
                           + ToDecimal(|content|)),
                      Some(|content| - received), content[received..])
  {
  }

  lemma SatisfiedAnswerAppends(received: nat, content: seq<Byte>)
    requires 0 < received < |content| < U64_LIMIT
    requires ParseByteRange(Some("bytes=" + ToDecimal(received) + "-"), |content|)
        == Success(Some(ByteRange(received, |content|)))
    ensures var a := ServeFile(ResumeHeader(received), content);
            && ClassifyResume(received, a.status, a.contentRange, a.contentLength) == Success(Append(Some(|content|)))
            && a.body == content[received..]
  {
    SatisfiedAnswer(received, content);
    SatisfiedRangeReadsBack(received, |content| - 1, |content|);
  }

  lemma OpenRangeParses(received: nat, length: nat)
    requires received < U64_LIMIT && length < U64_LIMIT
    ensures ParseByteRange(Some("bytes=" + ToDecimal(received) + "-"), length)
            == if received < length then Success(Some(ByteRange(received, length))) else Failure(Rejected)
  {
    if length > 0 {
      PrintedOpenRange(received, length);
    }
  }
}
