/** The parser itself, cutting responses off the front of what it is fed. */
module ResponseParsers {
  import opened Wrappers
  import opened Octets
  import opened Responses

  /** What reading one chunk leaves of a body to read. */
  lemma ChunkStep(buffer: Octets, start: nat, position: nat, body: Octets, rules: Rules)
    ensures ChunksFrom(buffer, start, position, body, rules) ==
            match ChunkAt(buffer, start, position, |body|, rules)
            case NoChunk => Partial
            case BadChunk(error) => BadBody(error)
            case LastChunk(next) => Trailers(buffer, start, next, body)
            case AChunk(data, next) => ChunksFrom(buffer, start, next, body + data, rules)
  {
  }

  class ResponseParser {
    const rules: Rules
    var buffer: Octets

    constructor (maxBodyBytes: nat)
      ensures rules == Http(maxBodyBytes) && buffer == []
    {
      rules := Http(maxBodyBytes);
      buffer := [];
    }

    method Feed(data: Octets)
      modifies this
      ensures buffer == old(buffer) + data
    {
      buffer := buffer + data;
    }

    method FinalHead(method_: string) returns (found: FinalHead)
      modifies this
      ensures found == FinalHeadIn(old(buffer), method_, rules)
      ensures buffer == found.buffer
    {
      while true
        invariant FinalHeadIn(buffer, method_, rules) == FinalHeadIn(old(buffer), method_, rules)
        decreases |buffer|
      {
        var head := HeadAt(buffer, method_, rules);
        match head {
          case NoHead => return Waiting(buffer);
          case BadHead(error) => return Broken(error, buffer);
          case AHead(head) =>
            if head.status >= OK {
              return Final(head, buffer);
            }
            if head.status == SWITCHING_PROTOCOLS {
              return Broken(SwitchedProtocols, buffer);
            }
            buffer := buffer[head.sizeBytes..];
        }
      }
    }

    /** Where a chunked body ends, its trailer fields being ignored. */
    method SkipTrailers(start: nat, from: nat, chunks: Octets) returns (body: Body)
      requires from <= |buffer|
      ensures body == Trailers(buffer, start, from, chunks)
    {
      var position := from;
      while true
        invariant position <= |buffer|
        invariant Trailers(buffer, start, position, chunks) == Trailers(buffer, start, from, chunks)
        decreases |buffer| - position
      {
        var line := LineAt(buffer, start, position, |chunks|);
        if line.NoLine? {
          return Partial;
        }
        if line.LineTooLong? {
          return BadBody(FramingTooLarge);
        }
        position := line.next;
        if line.text == [] {
          return Whole(chunks, position);
        }
      }
    }

    method ChunkedBody(start: nat) returns (body: Body)
      requires start <= |buffer|
      ensures body == ChunksFrom(buffer, start, start, [], rules)
    {
      var chunks: Octets := [];
      var position := start;
      ghost var all := ChunksFrom(buffer, start, start, [], rules);
      while true
        invariant position <= |buffer|
        invariant ChunksFrom(buffer, start, position, chunks, rules) == all
        decreases |buffer| - position
      {
        ChunkStep(buffer, start, position, chunks, rules);
        var found := OneChunk(start, position, |chunks|);
        match found
        case NoChunk => return Partial;
        case BadChunk(error) => return BadBody(error);
        case LastChunk(next) =>
          body := SkipTrailers(start, next, chunks);
          return;
        case AChunk(data, next) =>
          chunks := chunks + data;
          position := next;
      }
    }

    /** The chunk whose size line is at `position`, with the data that must follow it. */
    method OneChunk(start: nat, position: nat, sizeBytes: nat) returns (found: ChunkFound)
      ensures found == ChunkAt(buffer, start, position, sizeBytes, rules)
    {
      var line := LineAt(buffer, start, position, sizeBytes);
      if line.NoLine? {
        return NoChunk;
      }
      if line.LineTooLong? {
        return BadChunk(FramingTooLarge);
      }
      var size := rules.sizeOf(line.text);
      if size.None? {
        return BadChunk(BadChunkSize(line.text));
      }
      if size.value == 0 {
        return LastChunk(line.next);
      }
      var end := line.next + size.value;
      if sizeBytes + size.value > rules.maxBody {
        return BadChunk(BodyTooLarge);
      }
      if |buffer| < end + LINE_END_BYTES {
        return NoChunk;
      }
      if buffer[end..end + LINE_END_BYTES] != LINE_END {
        return BadChunk(BadChunkEnd);
      }
      return AChunk(buffer[line.next..end], end + LINE_END_BYTES);
    }

    method Take(request: RequestLine, head: Head, body: Octets, end: nat) returns (response: Response)
      requires end <= |buffer|
      modifies this
      ensures Responds(response, buffer) == Taken(request, head, body, old(buffer), end)
    {
      buffer := buffer[end..];
      return Response(request, head.status, head.reason, head.headers, body, head.closesConnection);
    }

    /** The response to `request`, or `None` until all of it has arrived. */
    method NextResponse(request: RequestLine) returns (result: Result<Option<Response>, ParseError>)
      modifies this
      ensures match result
              case Failure(error) => Next(old(buffer), request, rules) == Fails(error, buffer)
              case Success(None) => Next(old(buffer), request, rules) == Waits(buffer)
              case Success(Some(response)) => Next(old(buffer), request, rules) == Responds(response, buffer)
    {
      var found := FinalHead(request.method_);
      if found.Waiting? {
        return Success(None);
      }
      if found.Broken? {
        return Failure(found.error);
      }
      var head := found.head;
      match head.framing {
        case ByLength(length) =>
          var end := head.sizeBytes + length;
          if |buffer| < end {
            return Success(None);
          }
          var response := Take(request, head, buffer[head.sizeBytes..end], end);
          return Success(Some(response));
        case Chunked =>
          var chunked := ChunkedBody(head.sizeBytes);
          match chunked {
            case Partial => return Success(None);
            case BadBody(error) => return Failure(error);
            case Whole(body, end) =>
              var response := Take(request, head, body, end);
              return Success(Some(response));
          }
        case UntilClose =>
          if |buffer| - head.sizeBytes > rules.maxBody {
            return Failure(BodyTooLarge);
          }
          return Success(None);
      }
    }

    /** The response to `request` once the peer has closed the connection, if one remains. */
    method Finish(request: RequestLine) returns (result: Result<Option<Response>, ParseError>)
      modifies this
      ensures match result
              case Failure(error) => Finished(old(buffer), request, rules) == Ends(Fails(error, buffer))
              case Success(None) => Finished(old(buffer), request, rules) == Nothing && buffer == old(buffer)
              case Success(Some(response)) => Finished(old(buffer), request, rules) == Ends(Responds(response, buffer))
    {
      if buffer == [] {
        return Success(None);
      }
      var found := FinalHead(request.method_);
      if found.Broken? {
        return Failure(found.error);
      }
      if found.Waiting? || !found.head.framing.UntilClose? {
        return Failure(ClosedPartway);
      }
      var response := Take(request, found.head, buffer[found.head.sizeBytes..], |buffer|);
      return Success(Some(response));
    }
  }
}
