/** Where the body of a response as sent begins and ends, by its method, its status and its fields. */
module Framings {
  import opened Wrappers
  import opened Text
  import opened Octets
  import opened Responses
  import opened Cutting
  import opened Wires
  import opened Heads
  import opened LongNumbers

  // ---- Numbers as sent ----------------------------------------------------

  /** `n` in decimal, as a peer writes it. */
  function Numeral(n: nat): (text: Octets)
    ensures text != []
  {
    (if n < 10 then [] else Numeral(n / 10)) + ['0' + (n % 10) as char]
  }

  lemma {:induction false} NumeralReads(n: nat)
    ensures AllDecimal(Numeral(n)) && Decimal(Numeral(n)) == n
  {
    var text := Numeral(n);
    if n >= 10 {
      NumeralReads(n / 10);
      assert text[..|text| - 1] == Numeral(n / 10);
    } else {
      assert text[..0] == [];
    }
  }

  predicate AllAre(values: seq<Octets>, value: Octets) {
    values != [] && forall i :: 0 <= i < |values| ==> values[i] == value
  }

  lemma IndexOfNone(s: Octets, c: char)
    requires c !in s
    ensures IndexOf(s, c) == |s|
  {
  }

  lemma CutOfFirst(first: Octets, rest: Octets, c: char)
    requires c !in first
    ensures Cut(first + [c] + rest, c) == [first] + Cut(rest, c)
  {
    var whole := first + [c] + rest;
    IndexOfFirst(first, c, rest);
    assert whole[..|first|] == first && whole[|first| + 1..] == rest;
  }

  lemma CutOfNone(s: Octets, c: char)
    requires c !in s
    ensures Cut(s, c) == [s]
  {
    IndexOfNone(s, c);
  }

  lemma {:induction false} CutOfMore(s: Octets, rest: Octets, c: char)
    requires c !in rest
    ensures Cut(s + [c] + rest, c) == Cut(s, c) + [rest]
    decreases |s|
  {
    var i := IndexOf(s, c);
    CutOfNone(rest, c);
    if i == |s| {
      CutOfNone(s, c);
      CutOfFirst(s, rest, c);
    } else {
      var first, after := s[..i], s[i + 1..];
      assert s == first + [c] + after;
      CutOfFirst(first, after, c);
      CutOfFirst(first, after + [c] + rest, c);
      assert s + [c] + rest == first + [c] + (after + [c] + rest);
      CutOfMore(after, rest, c);
    }
  }

  predicate IsPlain(value: Octets) {
    value != [] && ',' !in value && forall i :: 0 <= i < |value| ==> !IsWhite(value[i])
  }

  lemma TrimOfPlain(value: Octets)
    requires IsPlain(value)
    ensures Trim(value, IsWhite) == value && Trim([' '] + value, IsWhite) == value
  {
    assert ([' '] + value)[1..] == value;
  }

  /** A value sent over and over is listed as so many of it. */
  lemma {:induction false} StrippedOfListed(values: seq<Octets>, value: Octets)
    requires AllAre(values, value) && IsPlain(value)
    ensures Stripped(Listed(values)) == values
    decreases |values|
  {
    TrimOfPlain(value);
    IndexOfNone(value, ',');
    if |values| == 1 {
      CutOfNone(value, ',');
    } else {
      var front := values[..|values| - 1];
      StrippedOfListed(front, value);
      assert Listed(values) == Listed(front) + [','] + ([' '] + value);
      CutOfMore(Listed(front), [' '] + value, ',');
      assert Stripped(Listed(values)) == Stripped(Listed(front)) + [value];
    }
  }

  // ---- What frames a body -------------------------------------------------

  /** Whether a response to `method_` with this status may have a body at all. */
  predicate MayHaveBody(method_: string, status: nat) {
    method_ != "HEAD" && status >= 200 && status != 204 && status != 304
  }

  predicate Unsaid(fields: seq<FieldSent>, key: Octets) {
    ValuesOf(fields, key) == []
  }

  lemma HeldAs(headers: Headers, fields: seq<FieldSent>, key: Octets)
    requires Holds(headers, fields)
    ensures key in headers <==> !Unsaid(fields, key)
    ensures key in headers ==> headers[key] == Listed(ValuesOf(fields, key))
  {
  }

  /** Whatever its fields say, a response that may have no body is framed as none. */
  lemma NoBodyFrames(method_: string, status: nat, headers: Headers, maxBody: nat)
    requires !MayHaveBody(method_, status)
    ensures FramingOf(method_, status, headers, maxBody) == Success(ByLength(0))
  {
  }

  lemma LengthsRead(values: seq<Octets>, n: nat, maxBody: nat)
    requires AllAre(values, Numeral(n)) && |Numeral(n)| <= 4300
    ensures ContentLength(Listed(values), maxBody) == if n <= maxBody then Success(n) else Failure(BodyTooLarge)
  {
    NumeralReads(n);
    StrippedOfListed(values, Numeral(n));
  }

  /** What is said of a length alone frames the body, or fails as it does. */
  lemma LengthAloneFrames(method_: string, status: nat, fields: seq<FieldSent>, headers: Headers, maxBody: nat)
    requires MayHaveBody(method_, status) && Holds(headers, fields) && Unsaid(fields, "transfer-encoding")
    requires !Unsaid(fields, "content-length")
    ensures var length := ContentLength(Listed(ValuesOf(fields, "content-length")), maxBody);
            FramingOf(method_, status, headers, maxBody) ==
            if length.Success? then Success(ByLength(length.value)) else Failure(length.error)
  {
    HeldAs(headers, fields, "transfer-encoding");
    HeldAs(headers, fields, "content-length");
  }

  /** A length said once, or over and over alike, frames a body no larger than is taken. */
  lemma LengthFrames(method_: string, status: nat, fields: seq<FieldSent>, headers: Headers, n: nat, maxBody: nat)
    requires MayHaveBody(method_, status) && Holds(headers, fields) && Unsaid(fields, "transfer-encoding")
    requires AllAre(ValuesOf(fields, "content-length"), Numeral(n)) && |Numeral(n)| <= 4300
    ensures FramingOf(method_, status, headers, maxBody) ==
            if n <= maxBody then Success(ByLength(n)) else Failure(BodyTooLarge)
  {
    LengthsRead(ValuesOf(fields, "content-length"), n, maxBody);
    LengthAloneFrames(method_, status, fields, headers, maxBody);
  }

  lemma ChunkedFrames(method_: string, status: nat, fields: seq<FieldSent>, headers: Headers, coding: Octets, maxBody: nat)
    requires MayHaveBody(method_, status) && Holds(headers, fields) && Unsaid(fields, "content-length")
    requires ValuesOf(fields, "transfer-encoding") == [coding] && IsPlain(coding)
    ensures FramingOf(method_, status, headers, maxBody) ==
            if Lower(coding) == "chunked" then Success(Chunked) else Failure(UnknownCoding(coding))
  {
    HeldAs(headers, fields, "transfer-encoding");
    HeldAs(headers, fields, "content-length");
    TrimOfPlain(coding);
  }

  lemma BothFail(method_: string, status: nat, fields: seq<FieldSent>, headers: Headers, maxBody: nat)
    requires MayHaveBody(method_, status) && Holds(headers, fields)
    requires !Unsaid(fields, "content-length") && !Unsaid(fields, "transfer-encoding")
    ensures FramingOf(method_, status, headers, maxBody) == Failure(TwoFramings)
  {
    HeldAs(headers, fields, "transfer-encoding");
    HeldAs(headers, fields, "content-length");
  }

  lemma NeitherFrames(method_: string, status: nat, fields: seq<FieldSent>, headers: Headers, maxBody: nat)
    requires MayHaveBody(method_, status) && Holds(headers, fields)
    requires Unsaid(fields, "content-length") && Unsaid(fields, "transfer-encoding")
    ensures FramingOf(method_, status, headers, maxBody) == Success(UntilClose)
  {
    HeldAs(headers, fields, "transfer-encoding");
    HeldAs(headers, fields, "content-length");
  }

  // ---- Responses as sent --------------------------------------------------

  /** A head as sent: found where it ends, and held field by field. */
  ghost predicate IsSentHead(line: StatusLine, fields: seq<FieldSent>, text: Octets, headers: Headers) {
    && IsHead(line.minorVersion, line.status, line.reason, fields) && text == SentHead(line, fields) && IsHeadText(text)
    && headers == Collected(fields, map[])
  }

  lemma SentHeadIs(line: StatusLine, fields: seq<FieldSent>, text: Octets, headers: Headers, method_: string, maxBody: nat)
    requires IsSentHead(line, fields, text, headers)
    ensures Holds(headers, fields)
    ensures var framing := FramingOf(method_, line.status, headers, maxBody);
            Http(maxBody).headOf(text, method_) ==
            if framing.Success? then Success(HeadOf(line, headers, framing.value, |text| + HEAD_END_BYTES))
            else Failure(framing.error)
  {
    AllHeld(fields, headers);
    SentHeadReads(line, fields, text, headers, method_, maxBody);
  }

  /** What is taken for `request` of a head as sent, with this body. */
  function Answer(request: RequestLine, line: StatusLine, headers: Headers, body: Octets, untilClose: bool): Response {
    Response(request, line.status, line.reason, headers, body, untilClose || Closes(line.minorVersion, headers))
  }

  /** A body as long as its Content-Length says is taken whole, and what follows it is left. */
  lemma LengthIsTaken(line: StatusLine, fields: seq<FieldSent>, text: Octets, headers: Headers, body: Octets,
                      tail: Octets, request: RequestLine, maxBody: nat)
    requires IsSentHead(line, fields, text, headers) && MayHaveBody(request.method_, line.status)
    requires Unsaid(fields, "transfer-encoding") && AllAre(ValuesOf(fields, "content-length"), Numeral(|body|))
    requires |body| <= maxBody && |Numeral(|body|)| <= 4300
    ensures Next(text + HEAD_END + body + tail, request, Http(maxBody)) ==
            Responds(Answer(request, line, headers, body, false), tail)
  {
    SentHeadIs(line, fields, text, headers, request.method_, maxBody);
    LengthFrames(request.method_, line.status, fields, headers, |body|, maxBody);
    LengthResponseReads(text, body, tail, request, Http(maxBody));
  }

  /** A body in chunks is taken as their data, and what follows them is left. */
  lemma ChunksAreTaken(line: StatusLine, fields: seq<FieldSent>, text: Octets, headers: Headers, coding: Octets, c: Chunks,
                       tail: Octets, request: RequestLine, maxBody: nat)
    requires IsSentHead(line, fields, text, headers) && MayHaveBody(request.method_, line.status)
    requires Unsaid(fields, "content-length") && ValuesOf(fields, "transfer-encoding") == [coding]
    requires IsPlain(coding) && Lower(coding) == "chunked"
    requires AreChunks(c, Http(maxBody)) && |Data(c.chunks)| <= maxBody && |Wire(c)| - |Data(c.chunks)| <= MAX_HEAD_BYTES
    ensures Next(text + HEAD_END + Wire(c) + tail, request, Http(maxBody)) ==
            Responds(Answer(request, line, headers, Data(c.chunks), false), tail)
  {
    SentHeadIs(line, fields, text, headers, request.method_, maxBody);
    ChunkedFrames(request.method_, line.status, fields, headers, coding, maxBody);
    ChunkedResponseReads(text, c, tail, request, Http(maxBody));
  }

  /** To HEAD, or with status 204 or 304, there is no body whatever the fields say, and what follows the head is left. */
  lemma NoneIsTaken(line: StatusLine, fields: seq<FieldSent>, text: Octets, headers: Headers, tail: Octets,
                    request: RequestLine, maxBody: nat)
    requires IsSentHead(line, fields, text, headers) && line.status >= 200
    requires request.method_ == "HEAD" || line.status == 204 || line.status == 304
    ensures Next(text + HEAD_END + tail, request, Http(maxBody)) == Responds(Answer(request, line, headers, [], false), tail)
  {
    SentHeadIs(line, fields, text, headers, request.method_, maxBody);
    NoBodyFrames(request.method_, line.status, headers, maxBody);
    LengthResponseReads(text, [], tail, request, Http(maxBody));
    assert text + HEAD_END + [] == text + HEAD_END;
  }

  /** An interim response is dropped, head and all, but for switching protocols, which fails. */
  lemma InterimIsDropped(line: StatusLine, fields: seq<FieldSent>, text: Octets, headers: Headers, tail: Octets,
                         request: RequestLine, maxBody: nat)
    requires IsSentHead(line, fields, text, headers) && line.status < 200
    ensures Next(text + HEAD_END + tail, request, Http(maxBody)) ==
            if line.status == 101 then Fails(SwitchedProtocols, text + HEAD_END + tail)
            else Next(tail, request, Http(maxBody))
  {
    SentHeadIs(line, fields, text, headers, request.method_, maxBody);
    NoBodyFrames(request.method_, line.status, headers, maxBody);
    FindHeadEnd(text, tail, 0);
    var b := text + HEAD_END + tail;
    assert b[..|text|] == text && b[|text| + HEAD_END_BYTES..] == tail;
  }

  /**
   With neither field the body runs until the close: it waits while it is no larger than is
   taken, and all of it is then given.
   */
  lemma RestIsTaken(line: StatusLine, fields: seq<FieldSent>, text: Octets, headers: Headers, body: Octets,
                    request: RequestLine, maxBody: nat)
    requires IsSentHead(line, fields, text, headers) && MayHaveBody(request.method_, line.status)
    requires Unsaid(fields, "content-length") && Unsaid(fields, "transfer-encoding")
    ensures var b := text + HEAD_END + body;
            && Next(b, request, Http(maxBody)) == (if |body| <= maxBody then Waits(b) else Fails(BodyTooLarge, b))
            && Finished(b, request, Http(maxBody)) == Ends(Responds(Answer(request, line, headers, body, true), []))
  {
    SentHeadIs(line, fields, text, headers, request.method_, maxBody);
    NeitherFrames(request.method_, line.status, fields, headers, maxBody);
    HeadReads(text, body, request.method_, Http(maxBody));
    var b := text + HEAD_END + body;
    assert b[|text| + HEAD_END_BYTES..] == body && b[|b|..] == [];
  }

  lemma HeadRefused(text: Octets, tail: Octets, request: RequestLine, rules: Rules, error: ParseError)
    requires IsHeadText(text) && rules.headOf(text, request.method_) == Failure(error)
    ensures Next(text + HEAD_END + tail, request, rules) == Fails(error, text + HEAD_END + tail)
  {
    FindHeadEnd(text, tail, 0);
    assert (text + HEAD_END + tail)[..|text|] == text;
  }

  /** A head that says two framings fails. */
  lemma TwoFramingsFail(line: StatusLine, fields: seq<FieldSent>, text: Octets, headers: Headers, tail: Octets,
                        request: RequestLine, maxBody: nat)
    requires IsSentHead(line, fields, text, headers) && MayHaveBody(request.method_, line.status)
    requires !Unsaid(fields, "content-length") && !Unsaid(fields, "transfer-encoding")
    ensures Next(text + HEAD_END + tail, request, Http(maxBody)) == Fails(TwoFramings, text + HEAD_END + tail)
  {
    SentHeadIs(line, fields, text, headers, request.method_, maxBody);
    BothFail(request.method_, line.status, fields, headers, maxBody);
    HeadRefused(text, tail, request, Http(maxBody), TwoFramings);
  }

  /** So does one of a coding other than chunked. */
  lemma OtherCodingsFail(line: StatusLine, fields: seq<FieldSent>, text: Octets, headers: Headers, coding: Octets,
                         tail: Octets, request: RequestLine, maxBody: nat)
    requires IsSentHead(line, fields, text, headers) && MayHaveBody(request.method_, line.status)
    requires Unsaid(fields, "content-length") && ValuesOf(fields, "transfer-encoding") == [coding]
    requires IsPlain(coding) && Lower(coding) != "chunked"
    ensures Next(text + HEAD_END + tail, request, Http(maxBody)) == Fails(UnknownCoding(coding), text + HEAD_END + tail)
  {
    SentHeadIs(line, fields, text, headers, request.method_, maxBody);
    ChunkedFrames(request.method_, line.status, fields, headers, coding, maxBody);
    HeadRefused(text, tail, request, Http(maxBody), UnknownCoding(coding));
  }

  /** And one that says it is longer than is taken. */
  lemma LongBodiesFail(line: StatusLine, fields: seq<FieldSent>, text: Octets, headers: Headers, n: nat,
                       tail: Octets, request: RequestLine, maxBody: nat)
    requires IsSentHead(line, fields, text, headers) && MayHaveBody(request.method_, line.status)
    requires Unsaid(fields, "transfer-encoding") && AllAre(ValuesOf(fields, "content-length"), Numeral(n))
    requires |Numeral(n)| <= 4300 && n > maxBody
    ensures Next(text + HEAD_END + tail, request, Http(maxBody)) == Fails(BodyTooLarge, text + HEAD_END + tail)
  {
    SentHeadIs(line, fields, text, headers, request.method_, maxBody);
    LengthFrames(request.method_, line.status, fields, headers, n, maxBody);
    HeadRefused(text, tail, request, Http(maxBody), BodyTooLarge);
  }

  /** A length that is no number fails; and so do lengths that differ. */
  lemma OtherLengthsFail(line: StatusLine, fields: seq<FieldSent>, text: Octets, headers: Headers, a: Octets, b: Octets,
                         tail: Octets, request: RequestLine, maxBody: nat)
    requires IsSentHead(line, fields, text, headers) && MayHaveBody(request.method_, line.status)
    requires Unsaid(fields, "transfer-encoding") && IsPlain(a) && IsPlain(b)
    ensures var next := Next(text + HEAD_END + tail, request, Http(maxBody));
            && (ValuesOf(fields, "content-length") == [a] && !AllDecimal(a) ==>
                  next == Fails(InvalidLength(a), text + HEAD_END + tail))
            && (ValuesOf(fields, "content-length") == [a, b] && a != b ==>
                  next == Fails(ConflictingLength(a + ", " + b), text + HEAD_END + tail))
  {
    SentHeadIs(line, fields, text, headers, request.method_, maxBody);
    var lengths := ValuesOf(fields, "content-length");
    if lengths == [a] && !AllDecimal(a) {
      OtherLengths(a, b, maxBody);
      LengthAloneFrames(request.method_, line.status, fields, headers, maxBody);
      HeadRefused(text, tail, request, Http(maxBody), InvalidLength(a));
    } else if lengths == [a, b] && a != b {
      OtherLengths(a, b, maxBody);
      LengthAloneFrames(request.method_, line.status, fields, headers, maxBody);
      HeadRefused(text, tail, request, Http(maxBody), ConflictingLength(a + ", " + b));
    }
  }

  lemma OtherLengths(a: Octets, b: Octets, maxBody: nat)
    requires IsPlain(a) && IsPlain(b)
    ensures !AllDecimal(a) ==> ContentLength(Listed([a]), maxBody) == Failure(InvalidLength(a))
    ensures a != b ==> ContentLength(Listed([a, b]), maxBody) == Failure(ConflictingLength(a + ", " + b))
  {
    OneOfListed(a);
    StrippedOfTwo(a, b);
    var values := Stripped(Listed([a, b]));
    assert values == [a, b] && values[0] == a && values[1] == b;
    assert b in values;
  }

  lemma OneOfListed(a: Octets)
    requires IsPlain(a)
    ensures Listed([a]) == a && Stripped(a) == [a]
  {
    TrimOfPlain(a);
    CutOfNone(a, ',');
  }

  lemma StrippedOfTwo(a: Octets, b: Octets)
    requires IsPlain(a) && IsPlain(b)
    ensures Listed([a, b]) == a + ", " + b && Stripped(Listed([a, b])) == [a, b]
  {
    TrimOfPlain(a);
    TrimOfPlain(b);
    IndexOfNone(a, ',');
    assert [a, b][..1] == [a] && Listed([a]) == a;
    CutOfNone(a, ',');
    assert Listed([a, b]) == a + [','] + ([' '] + b);
    CutOfMore(a, [' '] + b, ',');
  }

  /** A head not ended within what is allowed fails; one that may yet be is waited for. */
  lemma HeadsEndOrFail(buffer: Octets, request: RequestLine, maxBody: nat)
    requires Find(buffer, "\r\n\r\n", 0, 65536) == None
    ensures Next(buffer, request, Http(maxBody)) ==
            if |buffer| >= 65536 then Fails(HeadTooLarge, buffer) else Waits(buffer)
  {
    assert HEAD_END == "\r\n\r\n";
  }

  // ---- Hello --------------------------------------------------------------

  /** A GET answered with a length of five takes five bytes, and leaves the rest. */
  lemma HelloIsTaken(target: string, tail: Octets, maxBody: nat)
    requires maxBody >= 5
    ensures var text := "HTTP/1.1 200 OK" + "\r\n" + "Content-Length: 5";
            var response := Response(RequestLine("GET", target), 200, "OK", map["content-length" := "5"], "hello", false);
            Next(text + "\r\n\r\n" + "hello" + tail, RequestLine("GET", target), Http(maxBody)) == Responds(response, tail)
  {
    var line, fields, headers := LINE_SENT, LengthField("5"), map["content-length" := "5"];
    var text := "HTTP/1.1 200 OK" + "\r\n" + "Content-Length: 5";
    HelloIsSent();
    LengthIsHeld("5");
    LengthIsSent("5");
    assert Numeral(5) == "5";
    assert ValuesOf(fields[1..], "content-length") == [] && Lower("Content-Length") == "content-length";
    assert ValuesOf(fields[1..], "transfer-encoding") == [];
    UnsaidConnectionCloses('1', headers);
    LengthIsTaken(line, fields, text, headers, "hello", tail, RequestLine("GET", target), maxBody);
  }

  lemma HelloIsSent()
    ensures var text := "HTTP/1.1 200 OK" + "\r\n" + "Content-Length: 5";
            SentHead(LINE_SENT, LengthField("5")) == text && IsHeadText(text)
  {
    var first, second := StatusText('1', 200, "OK"), FieldLine(FieldSent("Content-Length", "5"));
    LinesSent("5");
    var lines := HeadLines('1', 200, "OK", LengthField("5"));
    assert lines[1..] == [second];
    assert Heads.Joined(lines) == first + LINE_END + second;
    HelloLines();
    TwoLinesAreHead(first, second);
  }

  lemma HelloLines()
    ensures StatusText('1', 200, "OK") == "HTTP/1.1 200 OK"
    ensures FieldLine(FieldSent("Content-Length", "5")) == "Content-Length: 5"
  {
    assert DecimalText(200) == "200";
  }
}
