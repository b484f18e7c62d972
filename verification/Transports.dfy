/** What a connection is told and hears, and what each thing that befalls it comes to. */
module Transports {
  import opened Wrappers
  import opened Octets
  import opened Responses
  import opened Connections

  // ---- All that is asked and heard ----------------------------------------

  /** The requests made while the connection is open, in order. */
  function AskedWhileOpen(s: Connection, actions: seq<Action>, parse: Parser): seq<RequestLine>
    requires CanRun(s, actions, parse)
    decreases |actions|
  {
    if actions == [] then []
    else
      (if actions[0].Request? && !s.shared.closed then [actions[0].request] else [])
      + AskedWhileOpen(Take(s, actions[0], parse), actions[1..], parse)
  }

  /** The bytes the socket gives while they are awaited, in order. */
  function Heard(s: Connection, actions: seq<Action>, parse: Parser): Octets
    requires CanRun(s, actions, parse)
    decreases |actions|
  {
    if actions == [] then []
    else
      (if actions[0].ReceiverMoves? && s.receiver.Awaiting? && actions[0].event.Bytes? then actions[0].event.data else [])
      + Heard(Take(s, actions[0], parse), actions[1..], parse)
  }

  lemma {:induction false} RunHears(s: Connection, actions: seq<Action>, parse: Parser)
    requires CanRun(s, actions, parse)
    ensures Run(s, actions, parse).requests == s.requests + AskedWhileOpen(s, actions, parse)
    ensures Run(s, actions, parse).received == s.received + Heard(s, actions, parse)
    decreases |actions|
  {
    if actions != [] {
      var next := Take(s, actions[0], parse);
      RunHears(next, actions[1..], parse);
      var asked := if actions[0].Request? && !s.shared.closed then [actions[0].request] else [];
      var heard := if actions[0].ReceiverMoves? && s.receiver.Awaiting? && actions[0].event.Bytes? then actions[0].event.data else [];
      StepHears(s, actions[0], parse);
      Regrouped(s.requests, asked, AskedWhileOpen(next, actions[1..], parse));
      Regrouped(s.received, heard, Heard(next, actions[1..], parse));
    }
  }

  lemma StepHears(s: Connection, action: Action, parse: Parser)
    requires Enabled(s, action)
    ensures Take(s, action, parse).requests ==
            s.requests + (if action.Request? && !s.shared.closed then [action.request] else [])
    ensures Take(s, action, parse).received ==
            s.received + (if action.ReceiverMoves? && s.receiver.Awaiting? && action.event.Bytes? then action.event.data else [])
  {
  }

  /** In every run the requests accepted are those made while it was open, and the bytes received those heard. */
  lemma EveryRunHears(actions: seq<Action>, parse: Parser)
    requires CanRun(CONNECTED, actions, parse)
    ensures var s := Run(CONNECTED, actions, parse);
            s.requests == AskedWhileOpen(CONNECTED, actions, parse) && s.received == Heard(CONNECTED, actions, parse)
  {
    RunHears(CONNECTED, actions, parse);
    assert [] + AskedWhileOpen(CONNECTED, actions, parse) == AskedWhileOpen(CONNECTED, actions, parse);
    assert [] + Heard(CONNECTED, actions, parse) == Heard(CONNECTED, actions, parse);
  }

  // ---- What befalls it ----------------------------------------------------

  /** Closed for `failure`, unless it was closed before, when it stays closed as it was. */
  predicate ClosedFor(s: Connection, after: Connection, failure: Failure) {
    && after.shared.closed
    && (s.shared.closed ==> after.shared.failure == s.shared.failure && after.shared.turnedAway == s.shared.turnedAway)
    && (!s.shared.closed ==> after.shared.failure == failure && !after.shared.turnedAway && after.stopDue)
  }

  function Received(s: Connection, event: Event, parse: Parser): Connection
    requires Enabled(s, ReceiverMoves(event))
  {
    Take(s, ReceiverMoves(event), parse)
  }

  /** A request made while it is open waits last for its response, and is queued last to send; later it is refused. */
  lemma RequestIsAccepted(s: Connection, request: RequestLine, parse: Parser)
    ensures var after := Take(s, Action.Request(request), parse);
            if s.shared.closed then after == s
            else
              && after.shared.waiting == s.shared.waiting + [Asked(s.shared.accepted, request)]
              && after.shared.outgoing == s.shared.outgoing + [Data(s.shared.accepted)]
              && after.shared.accepted == s.shared.accepted + 1 && !after.shared.closed
  {
  }

  /** Bytes heard stand last in the buffer; silence changes nothing. */
  lemma BytesAreBuffered(s: Connection, data: Octets, parse: Parser)
    requires s.receiver == Awaiting && data != []
    ensures var after := Received(s, Bytes(data), parse);
            after.buffer == s.buffer + data && after.receiver == Delivering && after.shared == s.shared
    ensures Received(s, Silence, parse) == s.(receiver := Looping)
  {
  }

  /** An error in receiving, or requests left waiting too long, closes it for that. */
  lemma ErrorsClose(s: Connection, event: Event, parse: Parser, later: Event)
    requires s.receiver == Awaiting && Enabled(s, ReceiverMoves(event)) && (event.ReceiveError? || event.TimeOut?)
    ensures var raised := Received(s, event, parse);
            && Enabled(raised, ReceiverMoves(later))
            && var after := Received(raised, later, parse);
               ClosedFor(s, after, if event.TimeOut? then NoProgress else ReceivingFailed) && after.receiver == Leaving
  {
  }

  /** A response that cannot be read closes it as malformed; but the error nothing catches, as closed by the peer. */
  lemma MalformedCloses(s: Connection, oldest: Asked, parse: Parser, a: Event, b: Event)
    requires s.receiver == Parsing(oldest) && parse.next(s.buffer, oldest.request).Fails?
    ensures var error := parse.next(s.buffer, oldest.request).error;
            var broken := Received(s, a, parse);
            && Enabled(broken, ReceiverMoves(b))
            && ClosedFor(s, Received(broken, b, parse), if error == NumberTooLong then ClosedByPeer else Malformed(error))
  {
  }

  /** Bytes nobody asked for close it; with none, it awaits more. */
  lemma UnaskedCloses(s: Connection, parse: Parser, a: Event, b: Event)
    requires s.receiver == Asking && s.shared.waiting == [] && !s.shared.closed
    ensures var surplus := Received(s, a, parse);
            && surplus.receiver == Surplus && Enabled(surplus, ReceiverMoves(b))
            && var next := Received(surplus, b, parse);
               if s.buffer == [] then next.receiver == Looping && next.shared == s.shared
               else next.receiver == Raised(Unasked)
  {
  }

  /** The peer's closing with nobody waiting is only that; with a request waiting, what remains may be its response. */
  lemma EofEnds(s: Connection, parse: Parser, later: Event)
    requires s.receiver == Awaiting
    ensures var ending := Received(s, Eof, parse);
            && Enabled(ending, ReceiverMoves(later))
            && Received(ending, later, parse).receiver ==
               if s.shared.waiting == [] then Leaving else Finishing(s.shared.waiting[0])
  {
  }

  lemma LeavingCloses(s: Connection, parse: Parser, event: Event)
    requires s.receiver == Leaving
    ensures ClosedFor(s, Received(s, event, parse), ClosedByPeer)
  {
  }

  /** The response taken is the oldest request's; one that closes the connection does so, as turned away. */
  lemma ResponseIsTheOldests(s: Connection, oldest: Asked, response: Response, parse: Parser, a: Event, b: Event, c: Event)
    requires s.receiver == Completing(oldest, response, false) && s.shared.waiting != []
    ensures var popped := Received(s, a, parse);
            && Enabled(popped, ReceiverMoves(b)) && popped.shared.waiting == s.shared.waiting[1..]
            && var shut := Received(popped, b, parse);
               && Enabled(shut, ReceiverMoves(c))
               && (if response.closesConnection && !s.shared.closed
                   then shut.shared.closed && shut.shared.turnedAway && shut.shared.failure == ClosedByPeer
                   else shut.shared.closed == s.shared.closed && shut.shared.failure == s.shared.failure)
               && Received(shut, c, parse).completions == s.completions + [Completion(oldest.ticket, Answered(response))]
  {
  }

  /** What is queued first is sent, while it is open; failing to send closes it; and told to stop, or closed, nothing is. */
  lemma FirstIsSent(s: Connection, parse: Parser, x: bool, y: bool, sends: bool)
    requires s.sender == Getting && s.shared.outgoing != []
    ensures var got := Take(s, SenderMoves(x), parse);
            && got.shared.outgoing == s.shared.outgoing[1..] && Enabled(got, SenderMoves(y))
            && var ready := Take(got, SenderMoves(y), parse);
               if s.shared.outgoing[0].Stop? || s.shared.closed then ready.sender == Stopped && ready.sent == s.sent
               else
                 && Enabled(ready, SenderMoves(sends))
                 && var after := Take(ready, SenderMoves(sends), parse);
                    if sends then after.sent == s.sent + [s.shared.outgoing[0].ticket] && after.sender == Getting
                    else ClosedFor(s, after, SendingFailed) && after.sender == Stopped && after.sent == s.sent
  {
  }

  /** Closed by this node, it is closed for that. */
  lemma CloseCloses(s: Connection, parse: Parser)
    ensures ClosedFor(s, Take(s, Close, parse), ClosedLocally)
  {
  }
}
