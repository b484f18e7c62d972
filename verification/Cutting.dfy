/** Parsing does not depend on how the bytes were cut, and holds its buffer within bounds. */
module Cutting {
  import opened Wrappers
  import opened Octets
  import opened Responses

  // ---- More bytes change nothing already decided --------------------------

  lemma HeadMore(b: Octets, more: Octets, method_: string, rules: Rules)
    ensures !HeadAt(b, method_, rules).NoHead? ==> HeadAt(b + more, method_, rules) == HeadAt(b, method_, rules)
  {
    FindMore(b, more, HEAD_END, 0, MAX_HEAD_BYTES);
    var at := Find(b, HEAD_END, 0, MAX_HEAD_BYTES);
    if at.Some? {
      assert (b + more)[..at.value] == b[..at.value];
    }
  }

  predicate Interim(head: Head) {
    head.status < OK && head.status != SWITCHING_PROTOCOLS
  }

  lemma InterimDropped(b: Octets, method_: string, rules: Rules, head: Head)
    requires HeadAt(b, method_, rules) == AHead(head) && Interim(head)
    ensures FinalHeadIn(b, method_, rules) == FinalHeadIn(b[head.sizeBytes..], method_, rules)
  {
  }

  /** What a search for a final head finds once more bytes stand behind what it left. */
  function Behind(f: FinalHead, more: Octets, method_: string, rules: Rules): FinalHead {
    match f
    case Waiting(rest) => FinalHeadIn(rest + more, method_, rules)
    case Final(head, rest) => Final(head, rest + more)
    case Broken(error, rest) => Broken(error, rest + more)
  }

  lemma {:induction false} FinalHeadMore(b: Octets, more: Octets, method_: string, rules: Rules)
    ensures FinalHeadIn(b + more, method_, rules) == Behind(FinalHeadIn(b, method_, rules), more, method_, rules)
    decreases |b|
  {
    HeadMore(b, more, method_, rules);
    var h := HeadAt(b, method_, rules);
    if h.AHead? && Interim(h.head) {
      var after := b[h.head.sizeBytes..];
      InterimDropped(b, method_, rules, h.head);
      InterimDropped(b + more, method_, rules, h.head);
      assert (b + more)[h.head.sizeBytes..] == after + more;
      FinalHeadMore(after, more, method_, rules);
    } else {
      FinalHeadStays(b, more, method_, rules);
    }
  }

  lemma FinalHeadStays(b: Octets, more: Octets, method_: string, rules: Rules)
    requires !HeadAt(b, method_, rules).NoHead? ==> HeadAt(b + more, method_, rules) == HeadAt(b, method_, rules)
    requires HeadAt(b, method_, rules).AHead? ==> !Interim(HeadAt(b, method_, rules).head)
    ensures FinalHeadIn(b + more, method_, rules) == Behind(FinalHeadIn(b, method_, rules), more, method_, rules)
  {
  }

  lemma LineMore(b: Octets, more: Octets, start: nat, position: nat, sizeBytes: nat)
    ensures !LineAt(b, start, position, sizeBytes).NoLine? ==>
              LineAt(b + more, start, position, sizeBytes) == LineAt(b, start, position, sizeBytes)
  {
    FindMore(b, more, LINE_END, position, Allowed(start, sizeBytes));
    var at := Find(b, LINE_END, position, Allowed(start, sizeBytes));
    if at.Some? {
      assert (b + more)[position..at.value] == b[position..at.value];
    }
  }

  lemma {:induction false} TrailersMore(b: Octets, more: Octets, start: nat, position: nat, body: Octets)
    ensures !Trailers(b, start, position, body).Partial? ==>
              Trailers(b + more, start, position, body) == Trailers(b, start, position, body)
    decreases |b| - position
  {
    LineMore(b, more, start, position, |body|);
    var line := LineAt(b, start, position, |body|);
    if line.ALine? && line.text != [] {
      TrailersMore(b, more, start, line.next, body);
    }
  }

  lemma ChunkMore(b: Octets, more: Octets, start: nat, position: nat, sizeBytes: nat, rules: Rules)
    ensures !ChunkAt(b, start, position, sizeBytes, rules).NoChunk? ==>
              ChunkAt(b + more, start, position, sizeBytes, rules) == ChunkAt(b, start, position, sizeBytes, rules)
  {
    LineMore(b, more, start, position, sizeBytes);
    var line := LineAt(b, start, position, sizeBytes);
    if line.ALine? && rules.sizeOf(line.text).Some? {
      var end := line.next + rules.sizeOf(line.text).value;
      if |b| >= end + LINE_END_BYTES {
        assert (b + more)[end..end + LINE_END_BYTES] == b[end..end + LINE_END_BYTES];
        assert (b + more)[line.next..end] == b[line.next..end];
      }
    }
  }

  lemma {:induction false} ChunksMore(b: Octets, more: Octets, start: nat, position: nat, body: Octets, rules: Rules)
    ensures !ChunksFrom(b, start, position, body, rules).Partial? ==>
              ChunksFrom(b + more, start, position, body, rules) == ChunksFrom(b, start, position, body, rules)
    decreases |b| - position
  {
    ChunkMore(b, more, start, position, |body|, rules);
    match ChunkAt(b, start, position, |body|, rules) {
      case NoChunk =>
      case BadChunk(_) =>
      case LastChunk(next) => TrailersMore(b, more, start, next, body);
      case AChunk(data, next) => ChunksMore(b, more, start, next, body + data, rules);
    }
  }

  lemma FromHeadMore(b: Octets, more: Octets, request: RequestLine, head: Head, rules: Rules)
    requires head.sizeBytes <= |b|
    ensures match FromHead(b, request, head, rules)
            case Waits(rest) => rest == b
            case Responds(response, rest) => FromHead(b + more, request, head, rules) == Responds(response, rest + more)
            case Fails(error, rest) => FromHead(b + more, request, head, rules) == Fails(error, rest + more)
  {
    match head.framing {
      case ByLength(length) =>
        var end := head.sizeBytes + length;
        if |b| >= end {
          assert (b + more)[head.sizeBytes..end] == b[head.sizeBytes..end];
          assert (b + more)[end..] == b[end..] + more;
        }
      case Chunked =>
        ChunksMore(b, more, head.sizeBytes, head.sizeBytes, [], rules);
        var chunked := ChunksFrom(b, head.sizeBytes, head.sizeBytes, [], rules);
        if chunked.Whole? {
          assert (b + more)[chunked.end..] == b[chunked.end..] + more;
        }
      case UntilClose =>
    }
  }

  /** A response or an error, once there, is there however much follows it. */
  lemma NextMore(b: Octets, more: Octets, request: RequestLine, rules: Rules)
    ensures match Next(b, request, rules)
            case Waits(rest) => Next(b + more, request, rules) == Next(rest + more, request, rules)
            case Responds(response, rest) => Next(b + more, request, rules) == Responds(response, rest + more)
            case Fails(error, rest) => Next(b + more, request, rules) == Fails(error, rest + more)
  {
    FinalHeadMore(b, more, request.method_, rules);
    match FinalHeadIn(b, request.method_, rules) {
      case Waiting(_) =>
      case Broken(_, _) =>
      case Final(head, rest) =>
        FromHeadMore(rest, more, request, head, rules);
        FinalHeadAgain(rest, head, more, request.method_, rules);
    }
  }

  /** A final head at the front of the buffer is found there again. */
  lemma FinalHeadAgain(rest: Octets, head: Head, more: Octets, method_: string, rules: Rules)
    requires HeadAt(rest, method_, rules) == AHead(head) && head.status >= OK
    ensures FinalHeadIn(rest + more, method_, rules) == Final(head, rest + more)
  {
    HeadMore(rest, more, method_, rules);
  }

  // ---- Feeding, and taking responses until none is whole ------------------

  /** What has been taken so far, what is held, and the requests still unanswered. */
  datatype Session = Session(
    buffer: Octets,
    requests: seq<RequestLine>,
    responses: seq<Response>,
    error: Option<ParseError>)

  function Drain(s: Session, rules: Rules): Session
    decreases |s.requests|
  {
    if s.error.Some? || s.requests == [] then s
    else
      match Next(s.buffer, s.requests[0], rules)
      case Waits(rest) => s.(buffer := rest)
      case Fails(error, rest) => s.(buffer := rest, error := Some(error))
      case Responds(response, rest) =>
        Drain(Session(rest, s.requests[1..], s.responses + [response], None), rules)
  }

  function Fed(s: Session, piece: Octets, rules: Rules): Session {
    if s.error.Some? then s else Drain(s.(buffer := s.buffer + piece), rules)
  }

  function FedAll(s: Session, pieces: seq<Octets>, rules: Rules): Session
    decreases |pieces|
  {
    if pieces == [] then s else FedAll(Fed(s, pieces[0], rules), pieces[1..], rules)
  }

  function Joined(pieces: seq<Octets>): Octets {
    if pieces == [] then [] else pieces[0] + Joined(pieces[1..])
  }

  /** The same responses and first error and, without one, the same bytes and requests left. */
  predicate Agree(s: Session, t: Session) {
    && s.responses == t.responses && s.error == t.error
    && (s.error.None? ==> s.buffer == t.buffer && s.requests == t.requests)
  }

  lemma {:induction false} DrainMore(s: Session, more: Octets, rules: Rules)
    requires s.error.None?
    ensures Agree(Fed(Drain(s, rules), more, rules), Drain(s.(buffer := s.buffer + more), rules))
    decreases |s.requests|
  {
    if s.requests != [] {
      NextMore(s.buffer, more, s.requests[0], rules);
      match Next(s.buffer, s.requests[0], rules) {
        case Waits(rest) =>
        case Fails(_, _) =>
        case Responds(response, rest) =>
          DrainMore(Session(rest, s.requests[1..], s.responses + [response], None), more, rules);
      }
    }
  }

  lemma FedTwice(s: Session, front: Octets, piece: Octets, rules: Rules)
    requires s.error.None?
    ensures Agree(Fed(Fed(s, front, rules), piece, rules), Fed(s, front + piece, rules))
  {
    DrainMore(s.(buffer := s.buffer + front), piece, rules);
    assert (s.buffer + front) + piece == s.buffer + (front + piece);
  }

  lemma {:induction false} FedAllAgrees(s: Session, t: Session, pieces: seq<Octets>, rules: Rules)
    requires Agree(s, t)
    ensures Agree(FedAll(s, pieces, rules), FedAll(t, pieces, rules))
    decreases |pieces|
  {
    if pieces != [] {
      if s.error.None? {
        assert s == t;
      }
      FedAllAgrees(Fed(s, pieces[0], rules), Fed(t, pieces[0], rules), pieces[1..], rules);
    }
  }

  lemma {:induction false} PiecesAgree(s: Session, front: Octets, pieces: seq<Octets>, rules: Rules)
    requires s.error.None?
    ensures Agree(FedAll(Fed(s, front, rules), pieces, rules), Fed(s, front + Joined(pieces), rules))
    decreases |pieces|
  {
    if pieces == [] {
      assert front + [] == front;
    } else {
      FedTwice(s, front, pieces[0], rules);
      FedAllAgrees(Fed(Fed(s, front, rules), pieces[0], rules), Fed(s, front + pieces[0], rules), pieces[1..], rules);
      PiecesAgree(s, front + pieces[0], pieces[1..], rules);
      assert (front + pieces[0]) + Joined(pieces[1..]) == front + Joined(pieces);
    }
  }

  function Opened(requests: seq<RequestLine>): Session {
    Session([], requests, [], None)
  }

  lemma NothingFed(requests: seq<RequestLine>, rules: Rules)
    ensures Fed(Opened(requests), [], rules) == Opened(requests)
  {
    assert Find([], HEAD_END, 0, MAX_HEAD_BYTES) == None;
  }

  /** However a stream is cut, it gives the same responses, leftover and first error. */
  lemma CutsDoNotMatter(requests: seq<RequestLine>, pieces: seq<Octets>, rules: Rules)
    ensures Agree(FedAll(Opened(requests), pieces, rules), Fed(Opened(requests), Joined(pieces), rules))
  {
    NothingFed(requests, rules);
    PiecesAgree(Opened(requests), [], pieces, rules);
    assert [] + Joined(pieces) == Joined(pieces);
  }

  // ---- Bounds -------------------------------------------------------------

  lemma NoChunkIsShort(b: Octets, start: nat, position: nat, sizeBytes: nat, rules: Rules)
    requires sizeBytes <= rules.maxBody && ChunkAt(b, start, position, sizeBytes, rules).NoChunk?
    ensures |b| < start + rules.maxBody + MAX_HEAD_BYTES + LINE_END_BYTES
  {
  }

  lemma {:induction false} PartialChunksAreShort(b: Octets, start: nat, position: nat, body: Octets, rules: Rules)
    requires |body| <= rules.maxBody && position <= |b|
    requires ChunksFrom(b, start, position, body, rules).Partial?
    ensures |b| < start + rules.maxBody + MAX_HEAD_BYTES + LINE_END_BYTES
    decreases |b| - position
  {
    match ChunkAt(b, start, position, |body|, rules) {
      case NoChunk => NoChunkIsShort(b, start, position, |body|, rules);
      case LastChunk(next) => PartialTrailersAreShort(b, start, next, body);
      case AChunk(data, next) => PartialChunksAreShort(b, start, next, body + data, rules);
    }
  }

  lemma {:induction false} PartialTrailersAreShort(b: Octets, start: nat, position: nat, body: Octets)
    requires Trailers(b, start, position, body).Partial?
    ensures |b| < Allowed(start, |body|)
    decreases |b| - position
  {
    var line := LineAt(b, start, position, |body|);
    if line.ALine? {
      PartialTrailersAreShort(b, start, line.next, body);
    }
  }

  lemma {:induction false} WaitingIsShort(b: Octets, method_: string, rules: Rules)
    requires FinalHeadIn(b, method_, rules).Waiting?
    ensures |FinalHeadIn(b, method_, rules).buffer| < MAX_HEAD_BYTES
    decreases |b|
  {
    match HeadAt(b, method_, rules) {
      case NoHead =>
      case BadHead(_) =>
      case AHead(head) => WaitingIsShort(b[head.sizeBytes..], method_, rules);
    }
  }

  /** Whatever is fed, what is held while a response is not whole is bounded. */
  lemma HeldIsBounded(b: Octets, request: RequestLine, rules: Rules)
    requires Limited(rules)
    requires Next(b, request, rules).Waits?
    ensures |Next(b, request, rules).buffer| < 2 * MAX_HEAD_BYTES + rules.maxBody + 2
  {
    match FinalHeadIn(b, request.method_, rules) {
      case Waiting(_) => WaitingIsShort(b, request.method_, rules);
      case Final(head, rest) =>
        if head.framing.Chunked? {
          PartialChunksAreShort(rest, head.sizeBytes, head.sizeBytes, [], rules);
        }
    }
  }

  /** A response taken has a body within its limit, and little framing around it. */
  lemma TakenIsBounded(b: Octets, request: RequestLine, rules: Rules)
    requires Limited(rules)
    requires Next(b, request, rules).Responds?
    ensures |Next(b, request, rules).response.body| <= rules.maxBody
    ensures var head := FinalHeadIn(b, request.method_, rules);
            |head.buffer| - |Next(b, request, rules).buffer| <=
              head.head.sizeBytes + |Next(b, request, rules).response.body| + MAX_HEAD_BYTES
    ensures FinalHeadIn(b, request.method_, rules).head.sizeBytes <= MAX_HEAD_BYTES
  {
  }

  /** So has one that the connection's closing ended, once no other was left to take. */
  lemma FinishedIsBounded(b: Octets, request: RequestLine, rules: Rules)
    requires Next(b, request, rules).Waits?
    requires Finished(Next(b, request, rules).buffer, request, rules).Ends?
    requires Finished(Next(b, request, rules).buffer, request, rules).step.Responds?
    ensures |Finished(Next(b, request, rules).buffer, request, rules).step.response.body| <= rules.maxBody
  {
    NextLeaves(b, request, rules);
  }

  /** While no response is whole, what is left holds the same head again, or none. */
  lemma NextLeaves(b: Octets, request: RequestLine, rules: Rules)
    requires Next(b, request, rules).Waits?
    ensures var rest, found := Next(b, request, rules).buffer, FinalHeadIn(b, request.method_, rules);
            if found.Final? then FinalHeadIn(rest, request.method_, rules) == found
            else FinalHeadIn(rest, request.method_, rules).Waiting?
  {
    match FinalHeadIn(b, request.method_, rules) {
      case Waiting(_) => WaitingAgain(b, request.method_, rules);
      case Final(head, held) =>
        FinalHeadAgain(held, head, [], request.method_, rules);
        assert held + [] == held;
    }
  }

  lemma {:induction false} WaitingAgain(b: Octets, method_: string, rules: Rules)
    requires FinalHeadIn(b, method_, rules).Waiting?
    ensures FinalHeadIn(FinalHeadIn(b, method_, rules).buffer, method_, rules).Waiting?
    decreases |b|
  {
    match HeadAt(b, method_, rules) {
      case NoHead =>
      case BadHead(_) =>
      case AHead(head) => WaitingAgain(b[head.sizeBytes..], method_, rules);
    }
  }
}
