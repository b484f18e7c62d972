/** A Content-Length of more digits than Python reads, which nothing catches as a malformed response. */
module LongNumbers {
  import opened Wrappers
  import opened Text
  import opened Octets
  import opened Responses
  import opened Wires
  import opened Heads
  import opened Connections

  // ---- When it is given ---------------------------------------------------

  /** A Content-Length that says one number, of more digits than are read. */
  predicate IsLong(field: Octets) {
    var values := Stripped(field);
    && (forall value :: value in values ==> value == values[0])
    && values[0] != [] && AllDecimal(values[0]) && |values[0]| > MAX_NUMBER_DIGITS
  }

  /** Whether a head is of a response that its Content-Length alone frames, and that is long. */
  predicate SaysTooLong(method_: string, status: nat, headers: Headers) {
    && !Bodiless(method_, status) && "transfer-encoding" !in headers
    && "content-length" in headers && IsLong(headers["content-length"])
  }

  lemma {:induction false} FieldsFailOtherwise(lines: seq<Octets>, headers: Headers)
    ensures ParseFields(lines, headers) != Failure(NumberTooLong)
    decreases |lines|
  {
    if lines != [] {
      var line := lines[0];
      var colon := IndexOf(line, ':');
      if colon < |line| {
        FieldsFailOtherwise(lines[1..], WithField(headers, line[..colon], Trim(line[colon + 1..], IsBlank)));
      }
    }
  }

  predicate HeadSaysTooLong(text: Octets, method_: string) {
    var lines := Lines(text);
    var status, headers := ParseStatusLine(lines[0]), ParseFields(lines[1..], map[]);
    status.Some? && headers.Success? && SaysTooLong(method_, status.value.status, headers.value)
  }

  /** A head fails so if and only if it is read, allows a body, and its Content-Length alone says one long number. */
  lemma TooLongExactly(text: Octets, method_: string, maxBody: nat)
    ensures ParseHead(text, method_, maxBody) == Failure(NumberTooLong) <==> HeadSaysTooLong(text, method_)
  {
    FieldsFailOtherwise(Lines(text)[1..], map[]);
  }

  lemma {:induction false} BrokenThere(b: Octets, method_: string, rules: Rules, error: ParseError)
    requires error != SwitchedProtocols
    ensures var found := FinalHeadIn(b, method_, rules);
            found == Broken(error, found.buffer) <==> HeadAt(found.buffer, method_, rules) == BadHead(error)
    decreases |b|
  {
    match HeadAt(b, method_, rules) {
      case NoHead =>
      case BadHead(_) =>
      case AHead(head) =>
        if head.status < OK && head.status != SWITCHING_PROTOCOLS {
          BrokenThere(b[head.sizeBytes..], method_, rules, error);
        }
    }
  }

  lemma {:induction false} TrailersFailOtherwise(buffer: Octets, start: nat, position: nat, body: Octets)
    ensures Trailers(buffer, start, position, body) != BadBody(NumberTooLong)
    decreases |buffer| - position
  {
    var line := LineAt(buffer, start, position, |body|);
    if line.ALine? && line.text != [] {
      TrailersFailOtherwise(buffer, start, line.next, body);
    }
  }

  lemma {:induction false} ChunksFailOtherwise(buffer: Octets, start: nat, position: nat, body: Octets, rules: Rules)
    ensures ChunksFrom(buffer, start, position, body, rules) != BadBody(NumberTooLong)
    decreases |buffer| - position
  {
    match ChunkAt(buffer, start, position, |body|, rules) {
      case NoChunk =>
      case BadChunk(error) =>
      case LastChunk(next) => TrailersFailOtherwise(buffer, start, next, body);
      case AChunk(data, next) => ChunksFailOtherwise(buffer, start, next, body + data, rules);
    }
  }

  /**
   Taking a response raises what nothing catches if and only if a head that is not interim
   has arrived whole, and says so.
   */
  lemma NextTooLongExactly(b: Octets, request: RequestLine, maxBody: nat)
    ensures var rest := FinalHeadIn(b, request.method_, Http(maxBody)).buffer;
            var end := Find(rest, HEAD_END, 0, MAX_HEAD_BYTES);
            Next(b, request, Http(maxBody)) == Fails(NumberTooLong, rest) <==>
            end.Some? && HeadSaysTooLong(rest[..end.value], request.method_)
  {
    var rules := Http(maxBody);
    var found := FinalHeadIn(b, request.method_, rules);
    var end := Find(found.buffer, HEAD_END, 0, MAX_HEAD_BYTES);
    BrokenThere(b, request.method_, rules, NumberTooLong);
    if end.Some? {
      TooLongExactly(found.buffer[..end.value], request.method_, maxBody);
    }
    if found.Final? {
      ChunksFailOtherwise(found.buffer, found.head.sizeBytes, found.head.sizeBytes, [], rules);
    }
  }

  // ---- One sent -----------------------------------------------------------

  const LINE_SENT := StatusLine('1', 200, "OK")

  function LengthField(value: Octets): seq<FieldSent> {
    [FieldSent("Content-Length", value)]
  }

  lemma LengthIsHeld(value: Octets)
    ensures Collected(LengthField(value), map[]) == map["content-length" := value]
  {
    var fields := LengthField(value);
    assert fields[1..] == [];
    LowerOfLower("content-length");
    assert Lower("Content-Length") == "content-length";
  }

  lemma DecimalsAreOne(value: Octets)
    requires value != [] && AllDecimal(value)
    ensures Stripped(value) == [value]
  {
    assert Cut(value, ',') == [value];
    assert Trim(value, IsWhite) == value;
  }

  /** A length of decimal digits sent alone is too long if and only if it has more than are read. */
  lemma LengthSentExactly(value: Octets, text: Octets, method_: string, maxBody: nat)
    requires value != [] && AllDecimal(value) && !Bodiless(method_, OK)
    requires text == SentHead(LINE_SENT, LengthField(value))
    ensures ParseHead(text, method_, maxBody) == Failure(NumberTooLong) <==> |value| > MAX_NUMBER_DIGITS
  {
    LengthIsSent(value);
    LengthIsHeld(value);
    SentHeadReads(LINE_SENT, LengthField(value), text, map["content-length" := value], method_, maxBody);
    DecimalsAreOne(value);
  }

  lemma NoReturn(line: Octets)
    requires '\r' !in line
    ensures IsLine(line)
  {
    forall i | 0 <= i < |line|
      ensures !StandsAt(line, LINE_END, i)
    {
      if i + 2 <= |line| {
        assert line[i..i + 2][0] == line[i];
      }
    }
  }

  lemma LinesSent(value: Octets)
    ensures HeadLines('1', 200, "OK", LengthField(value)) ==
            [StatusText('1', 200, "OK"), FieldLine(FieldSent("Content-Length", value))]
  {
    assert LengthField(value)[1..] == [];
  }

  lemma LengthIsSent(value: Octets)
    requires value != [] && AllDecimal(value)
    ensures IsHead('1', 200, "OK", LengthField(value))
  {
    LinesSent(value);
    NoReturn(StatusText('1', 200, "OK"));
    NoReturn(FieldLine(FieldSent("Content-Length", value)));
  }

  lemma TwoLinesAreHead(first: Octets, second: Octets)
    requires '\r' !in first && '\r' !in second && second != []
    requires |first| + LINE_END_BYTES + |second| + HEAD_END_BYTES <= MAX_HEAD_BYTES
    ensures IsHeadText(first + LINE_END + second)
  {
    var text := first + LINE_END + second;
    var s := text + HEAD_END;
    forall i | 0 <= i < |text|
      ensures !StandsAt(s, HEAD_END, i)
    {
      assert s[i] == '\r' ==> i == |first|;
      assert s[|first| + 2] == second[0];
      if i == |first| {
        assert s[i..i + 4][2] == s[i + 2];
      } else {
        assert s[i..i + 4][0] == s[i];
      }
    }
  }

  function LongLength(): Octets {
    seq(MAX_NUMBER_DIGITS + 1, _ => '1')
  }

  /** What a peer sends whose Content-Length has one digit more than are read. */
  function LongSent(): Octets {
    SentHead(LINE_SENT, LengthField(LongLength())) + HEAD_END
  }

  lemma LongIsHead()
    ensures IsHeadText(SentHead(LINE_SENT, LengthField(LongLength())))
  {
    var fields := LengthField(LongLength());
    var first, second := StatusText('1', 200, "OK"), FieldLine(fields[0]);
    LinesSent(LongLength());
    var lines := HeadLines('1', 200, "OK", fields);
    assert lines[1..] == [second];
    assert Joined(lines) == first + LINE_END + second;
    TwoLinesAreHead(first, second);
  }

  /** A head that is refused fails the request it is taken for, and completes nothing. */
  lemma HeadFails(text: Octets, request: RequestLine, rules: Rules, error: ParseError)
    requires IsHeadText(text) && rules.headOf(text, request.method_) == Failure(error)
    ensures Next(text + HEAD_END, request, rules) == Fails(error, text + HEAD_END)
    ensures var d := Delivered(Delivery(Accepting(OPENED, request), text + HEAD_END, [], None), rules);
            d.completions == [] && d.error == Some(error)
  {
    FindHeadEnd(text, [], 0);
    var b := text + HEAD_END;
    assert b + [] == b && b[..|text|] == text;
  }

  /** Asked for with GET, it is the error nothing catches; nor is it delivered. */
  lemma LongLengthIsUncaught(target: string, maxBody: nat)
    ensures var request, rules := RequestLine("GET", target), Http(maxBody);
            && Next(LongSent(), request, rules) == Fails(NumberTooLong, LongSent())
            && var d := Delivered(Delivery(Accepting(OPENED, request), LongSent(), [], None), rules);
               d.completions == [] && d.error == Some(NumberTooLong) && Raising(NumberTooLong) == None
  {
    var text := SentHead(LINE_SENT, LengthField(LongLength()));
    LongIsHead();
    LengthSentExactly(LongLength(), text, "GET", maxBody);
    HeadFails(text, RequestLine("GET", target), Http(maxBody), NumberTooLong);
  }
}
