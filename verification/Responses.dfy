/** Incremental parsing of pipelined HTTP/1.1 responses (sections 6.3 and 7.1 of RFC 9112). */
module Responses {
  import opened Wrappers
  import opened Text
  import opened Hex
  import opened Octets

  const MAX_HEAD_BYTES: nat := 64 * 1024
  /** The longest number Python reads from text. */
  const MAX_NUMBER_DIGITS: nat := 4300
  const OK := 200
  const SWITCHING_PROTOCOLS := 101

  datatype RequestLine = RequestLine(method_: string, target: string)

  /** `NumberTooLong` is the one error here that is not of a malformed response. */
  datatype ParseError =
    | HeadTooLarge
    | BadStatusLine(line: Octets)
    | BadHeaderLine(line: Octets)
    | SwitchedProtocols
    | TwoFramings
    | UnknownCoding(field: Octets)
    | ConflictingLength(field: Octets)
    | InvalidLength(field: Octets)
    | NumberTooLong
    | BodyTooLarge
    | FramingTooLarge
    | BadChunkSize(line: Octets)
    | BadChunkEnd
    | ClosedPartway

  /** Header fields by their lower-cased names. */
  type Headers = map<Octets, Octets>

  datatype Response = Response(
    request: RequestLine,
    status: nat,
    reason: Octets,
    headers: Headers,
    body: Octets,
    closesConnection: bool)

  datatype Framing = ByLength(lengthBytes: nat) | Chunked | UntilClose

  datatype Head = Head(
    status: nat,
    reason: Octets,
    headers: Headers,
    closesConnection: bool,
    sizeBytes: nat,
    framing: Framing)

  // ---- A head's text ------------------------------------------------------

  predicate IsDecimal(c: char) {
    '0' <= c <= '9'
  }

  predicate AllDecimal(s: Octets) {
    forall i :: 0 <= i < |s| ==> IsDecimal(s[i])
  }

  function Decimal(s: Octets): nat
    requires AllDecimal(s)
  {
    if s == [] then 0 else Decimal(s[..|s| - 1]) * 10 + (s[|s| - 1] - '0') as int
  }

  predicate IsTokenChar(c: char) {
    IsDecimal(c) || 'a' <= c <= 'z' || 'A' <= c <= 'Z' || c in "!#$%&'*+-.^_`|~"
  }

  predicate IsToken(s: Octets) {
    s != [] && forall i :: 0 <= i < |s| ==> IsTokenChar(s[i])
  }

  predicate IsFieldValue(s: Octets) {
    forall i :: 0 <= i < |s| ==> s[i] == '\t' || (' ' <= s[i] && s[i] != '\U{7f}')
  }

  datatype StatusLine = StatusLine(minorVersion: char, status: nat, reason: Octets)

  function ParseStatusLine(line: Octets): Option<StatusLine> {
    if !("HTTP/1." <= line) || |line| < 12 || !IsDecimal(line[7]) || line[8] != ' ' || !AllDecimal(line[9..12]) then None
    else if |line| == 12 then Some(StatusLine(line[7], Decimal(line[9..12]), []))
    else if line[12] != ' ' || '\n' in line[13..] then None
    else Some(StatusLine(line[7], Decimal(line[9..12]), line[13..]))
  }

  function WithField(headers: Headers, name: Octets, value: Octets): Headers {
    var key := Lower(name);
    headers[key := if key in headers then headers[key] + ", " + value else value]
  }

  function ParseFields(lines: seq<Octets>, headers: Headers): Result<Headers, ParseError> {
    if lines == [] then Success(headers)
    else
      var line := lines[0];
      var colon := IndexOf(line, ':');
      if colon == |line| then Failure(BadHeaderLine(line))
      else
        var name := line[..colon];
        var value := Trim(line[colon + 1..], IsBlank);
        if !IsToken(name) || !IsFieldValue(value) then Failure(BadHeaderLine(line))
        else ParseFields(lines[1..], WithField(headers, name, value))
  }

  function Field(headers: Headers, name: Octets): Octets {
    if name in headers then headers[name] else []
  }

  /** What a comma-separated field lists, each stripped and lower-cased. */
  function Options(field: Octets): seq<Octets> {
    var pieces := Cut(field, ',');
    seq(|pieces|, i requires 0 <= i < |pieces| => Lower(Trim(pieces[i], IsWhite)))
  }

  function Stripped(field: Octets): seq<Octets> {
    var pieces := Cut(field, ',');
    seq(|pieces|, i requires 0 <= i < |pieces| => Trim(pieces[i], IsWhite))
  }

  function ContentLength(field: Octets, maxBody: nat): Result<nat, ParseError> {
    var values := Stripped(field);
    if exists value :: value in values && value != values[0] then Failure(ConflictingLength(field))
    else
      var value := values[0];
      if value == [] || !AllDecimal(value) then Failure(InvalidLength(field))
      else if |value| > MAX_NUMBER_DIGITS then Failure(NumberTooLong)
      else if Decimal(value) > maxBody then Failure(BodyTooLarge)
      else Success(Decimal(value))
  }

  predicate Bodiless(method_: string, status: nat) {
    method_ == "HEAD" || status < OK || status == 204 || status == 304
  }

  function FramingOf(method_: string, status: nat, headers: Headers, maxBody: nat)
    : (r: Result<Framing, ParseError>)
    ensures r.Success? && r.value.ByLength? ==> r.value.lengthBytes <= maxBody
  {
    if Bodiless(method_, status) then Success(ByLength(0))
    else if "transfer-encoding" in headers then
      if "content-length" in headers then Failure(TwoFramings)
      else if Lower(Trim(headers["transfer-encoding"], IsWhite)) != "chunked" then
        Failure(UnknownCoding(headers["transfer-encoding"]))
      else Success(Chunked)
    else if "content-length" in headers then
      var length :- ContentLength(headers["content-length"], maxBody);
      Success(ByLength(length))
    else Success(UntilClose)
  }

  /** Whether a response asks for the connection to close, as its version reads that. */
  predicate Closes(minorVersion: char, headers: Headers) {
    var options := Options(Field(headers, "connection"));
    "close" in options || (minorVersion == '0' && "keep-alive" !in options)
  }

  function HeadOf(status: StatusLine, headers: Headers, framing: Framing, sizeBytes: nat): Head {
    Head(status.status, status.reason, headers, Closes(status.minorVersion, headers) || framing.UntilClose?,
         sizeBytes, framing)
  }

  /** The head whose text, before its blank line, is `text`. */
  function ParseHead(text: Octets, method_: string, maxBody: nat): (r: Result<Head, ParseError>)
    ensures r.Success? && r.value.framing.ByLength? ==> r.value.framing.lengthBytes <= maxBody
  {
    var lines := Lines(text);
    match ParseStatusLine(lines[0])
    case None => Failure(BadStatusLine(lines[0]))
    case Some(status) =>
      var headers :- ParseFields(lines[1..], map[]);
      var framing :- FramingOf(method_, status.status, headers, maxBody);
      Success(HeadOf(status, headers, framing, |text| + HEAD_END_BYTES))
  }

  function HexNumber(s: Octets): nat
    requires forall i :: 0 <= i < |s| ==> IsAnyDigit(s[i])
  {
    if s == [] then 0 else HexNumber(s[..|s| - 1]) * 16 + Value(s[|s| - 1])
  }

  /** The size a chunk's line gives, its extensions left out. */
  function ChunkSize(line: Octets): Option<nat> {
    var text := Trim(line[..IndexOf(line, ';')], IsBlank);
    if 1 <= |text| <= 16 && forall i :: 0 <= i < |text| ==> IsAnyDigit(text[i]) then Some(HexNumber(text)) else None
  }

  // ---- What the buffer holds ----------------------------------------------

  /**
   How a head's text is read for the method of its request, and the size from a chunk's
   line; and the largest body taken.
   */
  datatype Rules = Rules(
    headOf: (Octets, string) -> Result<Head, ParseError>,
    sizeOf: Octets -> Option<nat>,
    maxBody: nat)

  /** The rules of HTTP/1.1 responses. */
  function Http(maxBody: nat): Rules {
    Rules((text, method_) => ParseHead(text, method_, maxBody), ChunkSize, maxBody)
  }

  /** A body framed by its length is refused where it is too large. */
  ghost predicate Limited(rules: Rules) {
    forall text, method_ :: rules.headOf(text, method_).Success? && rules.headOf(text, method_).value.framing.ByLength? ==>
      rules.headOf(text, method_).value.framing.lengthBytes <= rules.maxBody
  }

  lemma HttpIsLimited(maxBody: nat)
    ensures Limited(Http(maxBody))
  {
    forall text, method_ | ParseHead(text, method_, maxBody).Success?
      ensures ParseHead(text, method_, maxBody).value.framing.ByLength? ==>
                ParseHead(text, method_, maxBody).value.framing.lengthBytes <= maxBody
    {
    }
  }

  datatype HeadFound = NoHead | AHead(head: Head) | BadHead(error: ParseError)

  /** The head at the start of `buffer`, if all of it has arrived. */
  function HeadAt(buffer: Octets, method_: string, rules: Rules): (h: HeadFound)
    ensures h.AHead? ==> 0 < h.head.sizeBytes <= |buffer| && h.head.sizeBytes <= MAX_HEAD_BYTES
    ensures h.NoHead? ==> |buffer| < MAX_HEAD_BYTES
  {
    match Find(buffer, HEAD_END, 0, MAX_HEAD_BYTES)
    case None => if |buffer| >= MAX_HEAD_BYTES then BadHead(HeadTooLarge) else NoHead
    case Some(end) =>
      match rules.headOf(buffer[..end], method_)
      case Failure(error) => BadHead(error)
      case Success(head) => AHead(head.(sizeBytes := end + HEAD_END_BYTES))
  }

  datatype FinalHead = Waiting(buffer: Octets) | Final(head: Head, buffer: Octets) | Broken(error: ParseError, buffer: Octets)

  /** The next head that is not interim, those before it dropped. */
  function FinalHeadIn(buffer: Octets, method_: string, rules: Rules): (f: FinalHead)
    ensures f.Final? ==> HeadAt(f.buffer, method_, rules) == AHead(f.head) && f.head.status >= OK
    ensures f.Final? ==> f.head.sizeBytes <= |f.buffer| && f.head.sizeBytes <= MAX_HEAD_BYTES
    decreases |buffer|
  {
    match HeadAt(buffer, method_, rules)
    case NoHead => Waiting(buffer)
    case BadHead(error) => Broken(error, buffer)
    case AHead(head) =>
      if head.status >= OK then Final(head, buffer)
      else if head.status == SWITCHING_PROTOCOLS then Broken(SwitchedProtocols, buffer)
      else FinalHeadIn(buffer[head.sizeBytes..], method_, rules)
  }

  datatype Line = NoLine | ALine(text: Octets, next: nat) | LineTooLong

  /** The most bytes the buffer may hold before a line of framing has ended. */
  function Allowed(start: nat, sizeBytes: nat): nat {
    start + sizeBytes + MAX_HEAD_BYTES
  }

  /** The line of chunked framing at `position`, `sizeBytes` of data having come before it. */
  function LineAt(buffer: Octets, start: nat, position: nat, sizeBytes: nat): (line: Line)
    ensures line.ALine? ==> position < line.next <= |buffer| && line.next <= Allowed(start, sizeBytes)
  {
    match Find(buffer, LINE_END, position, Allowed(start, sizeBytes))
    case None => if |buffer| >= Allowed(start, sizeBytes) then LineTooLong else NoLine
    case Some(end) => ALine(buffer[position..end], end + LINE_END_BYTES)
  }

  datatype Body = Partial | Whole(body: Octets, end: nat) | BadBody(error: ParseError)

  function Trailers(buffer: Octets, start: nat, position: nat, body: Octets): (b: Body)
    ensures b.Whole? ==> b.body == body && position < b.end <= |buffer| && b.end <= Allowed(start, |body|)
    decreases |buffer| - position
  {
    match LineAt(buffer, start, position, |body|)
    case NoLine => Partial
    case LineTooLong => BadBody(FramingTooLarge)
    case ALine(text, next) => if text == [] then Whole(body, next) else Trailers(buffer, start, next, body)
  }

  datatype ChunkFound = NoChunk | LastChunk(next: nat) | AChunk(data: Octets, next: nat) | BadChunk(error: ParseError)

  /** The chunk whose size line is at `position`, `sizeBytes` of data having come before it. */
  function ChunkAt(buffer: Octets, start: nat, position: nat, sizeBytes: nat, rules: Rules): (c: ChunkFound)
    ensures c.LastChunk? ==> position < c.next <= |buffer| && c.next <= Allowed(start, sizeBytes)
    ensures c.AChunk? ==> position < c.next <= |buffer| && c.data != []
    ensures c.AChunk? ==> c.next <= Allowed(start, sizeBytes + |c.data|) + LINE_END_BYTES
    ensures c.AChunk? ==> sizeBytes + |c.data| <= rules.maxBody
  {
    match LineAt(buffer, start, position, sizeBytes)
    case NoLine => NoChunk
    case LineTooLong => BadChunk(FramingTooLarge)
    case ALine(line, next) =>
      match rules.sizeOf(line)
      case None => BadChunk(BadChunkSize(line))
      case Some(size) =>
        var end := next + size;
        if size == 0 then LastChunk(next)
        else if sizeBytes + size > rules.maxBody then BadChunk(BodyTooLarge)
        else if |buffer| < end + LINE_END_BYTES then NoChunk
        else if buffer[end..end + LINE_END_BYTES] != LINE_END then BadChunk(BadChunkEnd)
        else AChunk(buffer[next..end], end + LINE_END_BYTES)
  }

  /** The rest of a chunked body, `body` having been read by `position`. */
  function ChunksFrom(buffer: Octets, start: nat, position: nat, body: Octets, rules: Rules): (b: Body)
    ensures b.Whole? ==> position < b.end <= |buffer| && b.end <= Allowed(start, |b.body|)
    ensures b.Whole? && |body| <= rules.maxBody ==> |b.body| <= rules.maxBody
    decreases |buffer| - position
  {
    match ChunkAt(buffer, start, position, |body|, rules)
    case NoChunk => Partial
    case BadChunk(error) => BadBody(error)
    case LastChunk(next) => Trailers(buffer, start, next, body)
    case AChunk(data, next) => ChunksFrom(buffer, start, next, body + data, rules)
  }

  datatype Step = Waits(buffer: Octets) | Responds(response: Response, buffer: Octets) | Fails(error: ParseError, buffer: Octets)

  function Taken(request: RequestLine, head: Head, body: Octets, buffer: Octets, end: nat): Step
    requires end <= |buffer|
  {
    Responds(Response(request, head.status, head.reason, head.headers, body, head.closesConnection), buffer[end..])
  }

  /** What asking for the response to `request` gives, and leaves in the buffer. */
  function Next(buffer: Octets, request: RequestLine, rules: Rules): Step {
    match FinalHeadIn(buffer, request.method_, rules)
    case Waiting(rest) => Waits(rest)
    case Broken(error, rest) => Fails(error, rest)
    case Final(head, rest) => FromHead(rest, request, head, rules)
  }

  function FromHead(rest: Octets, request: RequestLine, head: Head, rules: Rules): Step
    requires head.sizeBytes <= |rest|
  {
    match head.framing
    case ByLength(length) =>
      var end := head.sizeBytes + length;
      if |rest| < end then Waits(rest) else Taken(request, head, rest[head.sizeBytes..end], rest, end)
    case Chunked =>
      (match ChunksFrom(rest, head.sizeBytes, head.sizeBytes, [], rules)
       case Partial => Waits(rest)
       case BadBody(error) => Fails(error, rest)
       case Whole(body, end) => Taken(request, head, body, rest, end))
    case UntilClose =>
      if |rest| - head.sizeBytes > rules.maxBody then Fails(BodyTooLarge, rest) else Waits(rest)
  }

  datatype End = Nothing | Ends(step: Step)

  /** The response the connection's closing completes, if bytes remain. */
  function Finished(buffer: Octets, request: RequestLine, rules: Rules): End {
    if buffer == [] then Nothing
    else
      match FinalHeadIn(buffer, request.method_, rules)
      case Waiting(rest) => Ends(Fails(ClosedPartway, rest))
      case Broken(error, rest) => Ends(Fails(error, rest))
      case Final(head, rest) =>
        if !head.framing.UntilClose? then Ends(Fails(ClosedPartway, rest))
        else Ends(Taken(request, head, rest[head.sizeBytes..], rest, |rest|))
  }
}
