/** What a peer writes on the wire, and that the parser reads exactly that. */
module Wires {
  import opened Wrappers
  import opened Octets
  import opened Responses
  import opened Cutting

  /** A chunk as sent: the line giving its size, extensions and all, and its data. */
  datatype Chunk = Chunk(line: Octets, data: Octets)

  /** A chunked body as sent (section 7.1 of RFC 9112). */
  datatype Chunks = Chunks(chunks: seq<Chunk>, last: Octets, trailers: seq<Octets>)

  predicate IsLine(line: Octets) {
    forall i :: 0 <= i < |line| ==> !StandsAt(line, LINE_END, i)
  }

  predicate IsChunk(chunk: Chunk, rules: Rules) {
    IsLine(chunk.line) && chunk.data != [] && rules.sizeOf(chunk.line) == Some(|chunk.data|)
  }

  predicate AreChunks(c: Chunks, rules: Rules) {
    && (forall i :: 0 <= i < |c.chunks| ==> IsChunk(c.chunks[i], rules))
    && IsLine(c.last) && rules.sizeOf(c.last) == Some(0)
    && AreTrailers(c.trailers)
  }

  predicate AreTrailers(trailers: seq<Octets>) {
    forall i :: 0 <= i < |trailers| ==> IsLine(trailers[i]) && trailers[i] != []
  }

  function TrailersWire(trailers: seq<Octets>): Octets {
    if trailers == [] then LINE_END else trailers[0] + LINE_END + TrailersWire(trailers[1..])
  }

  function Wire(c: Chunks): Octets
    decreases |c.chunks|
  {
    if c.chunks == [] then c.last + LINE_END + TrailersWire(c.trailers)
    else c.chunks[0].line + LINE_END + (c.chunks[0].data + LINE_END + Wire(c.(chunks := c.chunks[1..])))
  }

  function Data(chunks: seq<Chunk>): Octets {
    if chunks == [] then [] else chunks[0].data + Data(chunks[1..])
  }

  // ---- Lines --------------------------------------------------------------

  lemma {:induction false} FindLine(line: Octets, tail: Octets, start: nat, stop: nat)
    requires IsLine(line) && start <= |line| && |line| + LINE_END_BYTES <= stop
    ensures Find(line + LINE_END + tail, LINE_END, start, stop) == Some(|line|)
    decreases |line| - start
  {
    var s := line + LINE_END + tail;
    if start == |line| {
      assert s[start..start + 2] == LINE_END;
    } else {
      assert !StandsAt(line, LINE_END, start);
      if start + 2 <= |line| {
        assert s[start..start + 2] == line[start..start + 2];
      } else {
        assert s[start..start + 2][1] == '\r';
      }
      FindLine(line, tail, start + 1, stop);
    }
  }

  /** The line after `front` is read, if its end is within what is allowed. */
  lemma LineReads(front: Octets, line: Octets, tail: Octets, start: nat, sizeBytes: nat)
    requires IsLine(line) && |front| + |line| + LINE_END_BYTES <= Allowed(start, sizeBytes)
    ensures LineAt(front + (line + LINE_END + tail), start, |front|, sizeBytes) ==
            ALine(line, |front| + |line| + LINE_END_BYTES)
  {
    var stop := Allowed(start, sizeBytes) - |front|;
    FindLine(line, tail, 0, stop);
    var s := line + LINE_END + tail;
    ShiftedAlike(front, s, front + s, LINE_END);
    FindAlike(s, front + s, |front|, LINE_END, 0, stop);
    LineBetween(front, line, LINE_END + tail);
    assert line + (LINE_END + tail) == line + LINE_END + tail;
  }

  lemma LineBetween(front: Octets, line: Octets, rest: Octets)
    ensures (front + (line + rest))[|front|..|front| + |line|] == line
  {
  }

  /** A line read holds no line break, and stands where it was read. */
  lemma LineRead(b: Octets, start: nat, position: nat, sizeBytes: nat)
    requires position <= |b| && LineAt(b, start, position, sizeBytes).ALine?
    ensures var line := LineAt(b, start, position, sizeBytes);
            IsLine(line.text) && b[position..line.next] == line.text + LINE_END
  {
    var line := LineAt(b, start, position, sizeBytes);
    forall i | 0 <= i < |line.text|
      ensures !StandsAt(line.text, LINE_END, i)
    {
      NoBreakWithin(b, start, position, sizeBytes, i);
    }
    assert b[position..line.next] == b[position..line.next - 2] + b[line.next - 2..line.next];
  }

  lemma NoBreakWithin(b: Octets, start: nat, position: nat, sizeBytes: nat, i: nat)
    requires position <= |b| && LineAt(b, start, position, sizeBytes).ALine?
    ensures !StandsAt(LineAt(b, start, position, sizeBytes).text, LINE_END, i)
  {
    var text := LineAt(b, start, position, sizeBytes).text;
    if StandsAt(text, LINE_END, i) {
      StandsWithin(b, position, position + |text|, LINE_END, i);
      FindIsFirst(b, LINE_END, position, Allowed(start, sizeBytes), position + i);
    }
  }

  // ---- What is written is read --------------------------------------------

  /** Where a line's bytes end and the rest begin, however they are bracketed. */
  lemma LineFirst(front: Octets, line: Octets, rest: Octets, tail: Octets)
    ensures front + ((line + LINE_END + rest) + tail) == front + (line + LINE_END + (rest + tail))
    ensures front + ((line + LINE_END + rest) + tail) == (front + line + LINE_END) + (rest + tail)
  {
    var a, b := (line + LINE_END + rest) + tail, line + LINE_END + (rest + tail);
    assert a == b;
  }

  /** A trailer line read leaves those after it to read; an empty one ends them. */
  lemma TrailerStep(b: Octets, start: nat, position: nat, body: Octets, line: Octets, next: nat)
    requires LineAt(b, start, position, |body|) == ALine(line, next)
    ensures Trailers(b, start, position, body) == if line == [] then Whole(body, next) else Trailers(b, start, next, body)
  {
  }

  /** A line standing at `at` is read from there. */
  lemma LineReadsAt(b: Octets, at: nat, line: Octets, rest: Octets, start: nat, sizeBytes: nat)
    requires at <= |b| && b[at..] == line + LINE_END + rest
    requires IsLine(line) && at + |line| + LINE_END_BYTES <= Allowed(start, sizeBytes)
    ensures LineAt(b, start, at, sizeBytes) == ALine(line, at + |line| + LINE_END_BYTES)
    ensures at + |line| + 2 <= |b| && b[at + |line| + 2..] == rest
  {
    assert b == b[..at] + (line + LINE_END + rest);
    LineReads(b[..at], line, rest, start, sizeBytes);
    RestBehind(b, at, line + LINE_END, rest);
  }

  lemma RestBehind(b: Octets, at: nat, front: Octets, rest: Octets)
    requires at <= |b| && b[at..] == front + rest
    ensures at + |front| <= |b| && b[at + |front|..] == rest
  {
    assert b[at + |front|..] == b[at..][|front|..];
  }

  /** A line in front of more is read, and leaves that to read. */
  lemma LineLeads(b: Octets, at: nat, line: Octets, wire: Octets, tail: Octets, start: nat, sizeBytes: nat)
    returns (next: nat)
    requires IsLine(line) && at <= |b| && b[at..] == (line + LINE_END + wire) + tail
    requires at + |line| + 2 <= Allowed(start, sizeBytes)
    ensures next == at + |line| + 2 <= |b| && LineAt(b, start, at, sizeBytes) == ALine(line, next)
    ensures b[next..] == wire + tail
  {
    next := at + |line| + 2;
    Regrouped(line + LINE_END, wire, tail);
    LineReadsAt(b, at, line, wire + tail, start, sizeBytes);
  }

  lemma {:induction false} TrailersReadAt(b: Octets, at: nat, trailers: seq<Octets>, tail: Octets, start: nat, body: Octets)
    requires AreTrailers(trailers) && at <= |b| && b[at..] == TrailersWire(trailers) + tail
    requires at + |TrailersWire(trailers)| <= Allowed(start, |body|)
    ensures Trailers(b, start, at, body) == Whole(body, at + |TrailersWire(trailers)|)
    decreases |trailers|
  {
    if trailers == [] {
      LineReadsAt(b, at, [], tail, start, |body|);
      TrailerStep(b, start, at, body, [], at + 2);
    } else {
      var next := LineLeads(b, at, trailers[0], TrailersWire(trailers[1..]), tail, start, |body|);
      TrailerStep(b, start, at, body, trailers[0], next);
      TrailersReadAt(b, next, trailers[1..], tail, start, body);
    }
  }

  lemma {:induction false} WireHasFraming(c: Chunks)
    ensures |Wire(c)| >= |Data(c.chunks)| + 2
    decreases |c.chunks|
  {
    if c.chunks != [] {
      WireHasFraming(c.(chunks := c.chunks[1..]));
    }
  }

  lemma LastRead(front: Octets, c: Chunks, tail: Octets, start: nat, body: Octets, rules: Rules)
    requires AreChunks(c, rules) && c.chunks == []
    requires |front| + |Wire(c)| <= Allowed(start, |body|)
    ensures ChunksFrom(front + (Wire(c) + tail), start, |front|, body, rules) == Whole(body, |front| + |Wire(c)|)
  {
    LastReadAt(front + (Wire(c) + tail), |front|, c.last, c.trailers, tail, start, body, rules);
  }

  lemma LastReadAt(b: Octets, at: nat, last: Octets, trailers: seq<Octets>, tail: Octets, start: nat, body: Octets,
                   rules: Rules)
    requires IsLine(last) && rules.sizeOf(last) == Some(0) && AreTrailers(trailers)
    requires at <= |b| && b[at..] == (last + LINE_END + TrailersWire(trailers)) + tail
    requires at + |last| + 2 + |TrailersWire(trailers)| <= Allowed(start, |body|)
    ensures ChunksFrom(b, start, at, body, rules) == Whole(body, at + |last| + 2 + |TrailersWire(trailers)|)
  {
    var next := LineLeads(b, at, last, TrailersWire(trailers), tail, start, |body|);
    TrailersReadAt(b, next, trailers, tail, start, body);
    LastStep(b, start, at, body, last, next, next + |TrailersWire(trailers)|, rules);
  }

  /** The last chunk's line leaves the trailers to read, and they end the body. */
  lemma LastStep(b: Octets, start: nat, position: nat, body: Octets, last: Octets, next: nat, end: nat, rules: Rules)
    requires LineAt(b, start, position, |body|) == ALine(last, next) && rules.sizeOf(last) == Some(0)
    requires Trailers(b, start, next, body) == Whole(body, end)
    ensures ChunksFrom(b, start, position, body, rules) == Whole(body, end)
  {
  }

  lemma ChunkPlaces(front: Octets, line: Octets, data: Octets, rest: Octets)
    ensures var read := front + line + LINE_END + (data + LINE_END);
            var next := |front| + |line| + 2;
            && front + (line + LINE_END + (data + LINE_END + rest)) == read + rest
            && next + |data| + 2 == |read|
            && (read + rest)[next..next + |data|] == data
            && StandsAt(read + rest, LINE_END, next + |data|)
  {
  }

  lemma ChunkRead(front: Octets, chunk: Chunk, rest: Octets, start: nat, sizeBytes: nat, rules: Rules)
    requires IsChunk(chunk, rules) && sizeBytes + |chunk.data| <= rules.maxBody
    requires |front| + |chunk.line| + LINE_END_BYTES <= Allowed(start, sizeBytes)
    ensures var read := front + chunk.line + LINE_END + (chunk.data + LINE_END);
            ChunkAt(read + rest, start, |front|, sizeBytes, rules) == AChunk(chunk.data, |read|)
  {
    ChunkPlaces(front, chunk.line, chunk.data, rest);
    LineReads(front, chunk.line, chunk.data + LINE_END + rest, start, sizeBytes);
  }

  /** Every chunked body as sent is read as its data, within the limits on data and framing. */
  lemma {:induction false} ChunksRead(front: Octets, c: Chunks, tail: Octets, start: nat, body: Octets, rules: Rules)
    requires AreChunks(c, rules)
    requires |body| + |Data(c.chunks)| <= rules.maxBody
    requires |front| + |Wire(c)| - |Data(c.chunks)| <= Allowed(start, |body|)
    ensures ChunksFrom(front + (Wire(c) + tail), start, |front|, body, rules) ==
            Whole(body + Data(c.chunks), |front| + |Wire(c)|)
    decreases |c.chunks|
  {
    if c.chunks == [] {
      LastRead(front, c, tail, start, body, rules);
      assert body + Data(c.chunks) == body;
    } else {
      var chunk, others := c.chunks[0], c.(chunks := c.chunks[1..]);
      FirstAndOthers(front, c, tail, body, rules);
      WireHasFraming(others);
      ChunkRead(front, chunk, Wire(others) + tail, start, |body|, rules);
      var read := front + chunk.line + LINE_END + (chunk.data + LINE_END);
      ChunksRead(read, others, tail, start, body + chunk.data, rules);
    }
  }

  lemma FirstAndOthers(front: Octets, c: Chunks, tail: Octets, body: Octets, rules: Rules)
    requires AreChunks(c, rules) && c.chunks != []
    ensures var chunk, others := c.chunks[0], c.(chunks := c.chunks[1..]);
            var read := front + chunk.line + LINE_END + (chunk.data + LINE_END);
            && IsChunk(chunk, rules) && AreChunks(others, rules)
            && front + (Wire(c) + tail) == read + (Wire(others) + tail)
            && |front| + |Wire(c)| == |read| + |Wire(others)|
            && body + Data(c.chunks) == (body + chunk.data) + Data(others.chunks)
            && |Data(c.chunks)| == |chunk.data| + |Data(others.chunks)|
  {
    var chunk, others := c.chunks[0], c.(chunks := c.chunks[1..]);
    forall i | 0 <= i < |others.chunks|
      ensures IsChunk(others.chunks[i], rules)
    {
      assert IsChunk(c.chunks[i + 1], rules);
    }
    var rest := Wire(others);
    LineFirst(front, chunk.line, chunk.data + LINE_END + rest, tail);
    assert (chunk.data + LINE_END + rest) + tail == chunk.data + LINE_END + (rest + tail);
    ChunkPlaces(front, chunk.line, chunk.data, rest + tail);
    assert body + (chunk.data + Data(others.chunks)) == (body + chunk.data) + Data(others.chunks);
  }

  // ---- What is read was written -------------------------------------------

  lemma {:induction false} TrailersWritten(b: Octets, start: nat, position: nat, body: Octets) returns (trailers: seq<Octets>)
    requires position <= |b| && Trailers(b, start, position, body).Whole?
    ensures AreTrailers(trailers)
    ensures b[position..Trailers(b, start, position, body).end] == TrailersWire(trailers)
    decreases |b| - position
  {
    var line := LineAt(b, start, position, |body|);
    var end := Trailers(b, start, position, body).end;
    LineRead(b, start, position, |body|);
    if line.text == [] {
      trailers := [];
      assert [] + LINE_END == LINE_END;
    } else {
      var rest := TrailersWritten(b, start, line.next, body);
      trailers := [line.text] + rest;
      assert trailers[1..] == rest;
      assert b[position..end] == b[position..line.next] + b[line.next..end];
    }
  }

  /** One chunk in front of a chunked body already written. */
  function Before(chunk: Chunk, c: Chunks): Chunks {
    c.(chunks := [chunk] + c.chunks)
  }

  lemma WrittenBefore(chunk: Chunk, c: Chunks, body: Octets, rules: Rules)
    requires IsChunk(chunk, rules) && AreChunks(c, rules)
    ensures AreChunks(Before(chunk, c), rules)
    ensures Wire(Before(chunk, c)) == (chunk.line + LINE_END + (chunk.data + LINE_END)) + Wire(c)
    ensures body + Data(Before(chunk, c).chunks) == (body + chunk.data) + Data(c.chunks)
  {
    var all := Before(chunk, c);
    assert all.chunks[1..] == c.chunks && all.(chunks := all.chunks[1..]) == c;
    assert chunk.line + LINE_END + (chunk.data + LINE_END + Wire(c)) ==
           (chunk.line + LINE_END + (chunk.data + LINE_END)) + Wire(c);
    assert body + (chunk.data + Data(c.chunks)) == (body + chunk.data) + Data(c.chunks);
  }

  /** Every body read is the data of a chunked body that was sent, to its last byte. */
  lemma {:induction false} ChunksWritten(b: Octets, start: nat, position: nat, body: Octets, rules: Rules)
    returns (c: Chunks)
    requires position <= |b| && ChunksFrom(b, start, position, body, rules).Whole?
    ensures AreChunks(c, rules)
    ensures var whole := ChunksFrom(b, start, position, body, rules);
            b[position..whole.end] == Wire(c) && whole.body == body + Data(c.chunks)
    decreases |b| - position
  {
    var whole := ChunksFrom(b, start, position, body, rules);
    match ChunkAt(b, start, position, |body|, rules) {
      case LastChunk(next) =>
        var last := LastWritten(b, start, position, |body|, rules);
        var trailers := TrailersWritten(b, start, next, body);
        c := Chunks([], last, trailers);
        Sliced(b, position, next, whole.end);
        assert body + [] == body;
      case AChunk(data, next) =>
        var chunk := ChunkWritten(b, start, position, |body|, rules);
        var others := ChunksWritten(b, start, next, body + data, rules);
        c := Before(chunk, others);
        WrittenBefore(chunk, others, body, rules);
        Sliced(b, position, next, whole.end);
    }
  }

  lemma Sliced(b: Octets, from: nat, middle: nat, to: nat)
    requires from <= middle <= to <= |b|
    ensures b[from..to] == b[from..middle] + b[middle..to]
  {
  }

  lemma LastWritten(b: Octets, start: nat, position: nat, sizeBytes: nat, rules: Rules) returns (last: Octets)
    requires position <= |b| && ChunkAt(b, start, position, sizeBytes, rules).LastChunk?
    ensures IsLine(last) && rules.sizeOf(last) == Some(0)
    ensures b[position..ChunkAt(b, start, position, sizeBytes, rules).next] == last + LINE_END
  {
    LineRead(b, start, position, sizeBytes);
    last := LineAt(b, start, position, sizeBytes).text;
  }

  lemma ChunkWritten(b: Octets, start: nat, position: nat, sizeBytes: nat, rules: Rules) returns (chunk: Chunk)
    requires position <= |b| && ChunkAt(b, start, position, sizeBytes, rules).AChunk?
    ensures var found := ChunkAt(b, start, position, sizeBytes, rules);
            && IsChunk(chunk, rules) && chunk.data == found.data
            && b[position..found.next] == chunk.line + LINE_END + (chunk.data + LINE_END)
  {
    LineRead(b, start, position, sizeBytes);
    var line := LineAt(b, start, position, sizeBytes);
    var end := line.next + rules.sizeOf(line.text).value;
    chunk := Chunk(line.text, b[line.next..end]);
    assert b[position..end + 2] == b[position..line.next] + (b[line.next..end] + b[end..end + 2]);
  }

  // ---- Whole responses ----------------------------------------------------

  /** A head's text is found where it ends, if no blank line stands in it. */
  predicate IsHeadText(text: Octets) {
    |text| + HEAD_END_BYTES <= MAX_HEAD_BYTES &&
    forall i :: 0 <= i < |text| ==> !StandsAt(text + HEAD_END, HEAD_END, i)
  }

  lemma {:induction false} FindHeadEnd(text: Octets, tail: Octets, start: nat)
    requires IsHeadText(text) && start <= |text|
    ensures Find(text + HEAD_END + tail, HEAD_END, start, MAX_HEAD_BYTES) == Some(|text|)
    decreases |text| - start
  {
    var s := text + HEAD_END + tail;
    assert s[start..start + 4] == (text + HEAD_END)[start..start + 4];
    if start == |text| {
      assert s[start..start + 4] == HEAD_END;
    } else {
      assert !StandsAt(text + HEAD_END, HEAD_END, start);
      FindHeadEnd(text, tail, start + 1);
    }
  }

  lemma HeadReads(text: Octets, tail: Octets, method_: string, rules: Rules)
    requires IsHeadText(text) && rules.headOf(text, method_).Success?
    requires rules.headOf(text, method_).value.status >= OK
    ensures var head := rules.headOf(text, method_).value.(sizeBytes := |text| + HEAD_END_BYTES);
            FinalHeadIn(text + HEAD_END + tail, method_, rules) == Final(head, text + HEAD_END + tail)
  {
    FindHeadEnd(text, tail, 0);
    assert (text + HEAD_END + tail)[..|text|] == text;
  }

  function ResponseOf(request: RequestLine, head: Head, body: Octets): Response {
    Response(request, head.status, head.reason, head.headers, body, head.closesConnection)
  }

  /** A response whose body is as long as its head says is read whole, and nothing after it. */
  lemma LengthResponseReads(text: Octets, body: Octets, tail: Octets, request: RequestLine, rules: Rules)
    requires IsHeadText(text) && rules.headOf(text, request.method_).Success?
    requires var head := rules.headOf(text, request.method_).value;
             head.status >= OK && head.framing == ByLength(|body|)
    ensures Next(text + HEAD_END + body + tail, request, rules) ==
            Responds(ResponseOf(request, rules.headOf(text, request.method_).value, body), tail)
  {
    HeadReads(text, body + tail, request.method_, rules);
    var b := text + HEAD_END + (body + tail);
    assert text + HEAD_END + body + tail == b;
    var size := |text| + 4;
    assert b[size..size + |body|] == body && b[size + |body|..] == tail;
  }

  /** A response whose body is chunked is read as its data, and nothing after it. */
  lemma ChunkedResponseReads(text: Octets, c: Chunks, tail: Octets, request: RequestLine, rules: Rules)
    requires IsHeadText(text) && rules.headOf(text, request.method_).Success?
    requires var head := rules.headOf(text, request.method_).value;
             head.status >= OK && head.framing == Chunked
    requires AreChunks(c, rules) && |Data(c.chunks)| <= rules.maxBody
    requires |Wire(c)| - |Data(c.chunks)| <= MAX_HEAD_BYTES
    ensures Next(text + HEAD_END + Wire(c) + tail, request, rules) ==
            Responds(ResponseOf(request, rules.headOf(text, request.method_).value, Data(c.chunks)), tail)
  {
    HeadReads(text, Wire(c) + tail, request.method_, rules);
    var front := text + HEAD_END;
    var b := front + (Wire(c) + tail);
    assert text + HEAD_END + Wire(c) + tail == b;
    ChunksRead(front, c, tail, |front|, [], rules);
    assert [] + Data(c.chunks) == Data(c.chunks);
    assert b[|front| + |Wire(c)|..] == tail;
  }

  /** An answer as sent: its bytes, and the response it is to the request it answers. */
  datatype Sent = Sent(bytes: Octets, response: Response)

  predicate IsSent(sent: Sent, rules: Rules) {
    Next(sent.bytes, sent.response.request, rules) == Responds(sent.response, [])
  }

  function SentBytes(sent: seq<Sent>): Octets {
    if sent == [] then [] else sent[0].bytes + SentBytes(sent[1..])
  }

  function SentRequests(sent: seq<Sent>): seq<RequestLine> {
    seq(|sent|, i requires 0 <= i < |sent| => sent[i].response.request)
  }

  function SentResponses(sent: seq<Sent>): seq<Response> {
    seq(|sent|, i requires 0 <= i < |sent| => sent[i].response)
  }

  lemma FirstRequest(sent: seq<Sent>)
    requires sent != []
    ensures SentRequests(sent) == [sent[0].response.request] + SentRequests(sent[1..])
  {
  }

  lemma FirstResponse(sent: seq<Sent>)
    requires sent != []
    ensures SentResponses(sent) == [sent[0].response] + SentResponses(sent[1..])
  {
  }

  lemma SentSplit(sent: seq<Sent>, more: seq<RequestLine>, tail: Octets, before: seq<Response>)
    requires sent != []
    ensures SentBytes(sent) + tail == sent[0].bytes + (SentBytes(sent[1..]) + tail)
    ensures (SentRequests(sent) + more) == [sent[0].response.request] + (SentRequests(sent[1..]) + more)
    ensures before + SentResponses(sent) == (before + [sent[0].response]) + SentResponses(sent[1..])
  {
    FirstRequest(sent);
    FirstResponse(sent);
    Regrouped(sent[0].bytes, SentBytes(sent[1..]), tail);
    Regrouped([sent[0].response.request], SentRequests(sent[1..]), more);
    Regrouped(before, [sent[0].response], SentResponses(sent[1..]));
  }

  lemma FirstAnswerRead(sent: Sent, rest: Octets, more: seq<RequestLine>, before: seq<Response>, rules: Rules)
    requires IsSent(sent, rules)
    ensures Drain(Session(sent.bytes + rest, [sent.response.request] + more, before, None), rules) ==
            Drain(Session(rest, more, before + [sent.response], None), rules)
  {
    NextMore(sent.bytes, rest, sent.response.request, rules);
    assert [] + rest == rest;
    assert ([sent.response.request] + more)[1..] == more;
  }

  /** Pipelined answers are each given to the request they answer, in order, whatever follows. */
  lemma {:induction false} PipelinedAnswersRead(sent: seq<Sent>, more: seq<RequestLine>, tail: Octets,
                                                before: seq<Response>, rules: Rules)
    requires forall i :: 0 <= i < |sent| ==> IsSent(sent[i], rules)
    ensures Drain(Session(SentBytes(sent) + tail, SentRequests(sent) + more, before, None), rules) ==
            Drain(Session(tail, more, before + SentResponses(sent), None), rules)
    decreases |sent|
  {
    if sent == [] {
      assert SentBytes(sent) + tail == tail && SentRequests(sent) + more == more;
      assert before + SentResponses(sent) == before;
    } else {
      SentSplit(sent, more, tail, before);
      FirstAnswerRead(sent[0], SentBytes(sent[1..]) + tail, SentRequests(sent[1..]) + more, before, rules);
      PipelinedAnswersRead(sent[1..], more, tail, before + [sent[0].response], rules);
    }
  }
}
