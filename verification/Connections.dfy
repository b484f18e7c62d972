/** One pipelining connection to a peer: what its threads share, and their steps. */
module Connections {
  import opened Wrappers
  import opened Octets
  import opened Responses
  import opened ResponseParsers

  datatype Failure =
    | ClosedLocally
    | ClosedByPeer
    | SendingFailed
    | ReceivingFailed
    | NoProgress
    | Malformed(error: ParseError)
    | Unasked
    | After(failure: Failure)

  datatype Outcome = Answered(response: Response) | Failed(failure: Failure)

  /** A request sent, or queued to send; the `ticket`-th that was accepted. */
  datatype Asked = Asked(ticket: nat, request: RequestLine)

  /** A future completed. */
  datatype Completion = Completion(ticket: nat, outcome: Outcome)

  datatype Message = Data(ticket: nat) | Stop

  /** What the lock guards, and the queue of requests to send. */
  datatype Shared = Shared(
    waiting: seq<Asked>,
    outgoing: seq<Message>,
    accepted: nat,
    closed: bool,
    turnedAway: bool,
    failure: Failure)

  const OPENED := Shared([], [], 0, false, false, ClosedByPeer)

  function Accepting(sh: Shared, request: RequestLine): Shared {
    sh.(waiting := sh.waiting + [Asked(sh.accepted, request)], outgoing := sh.outgoing + [Data(sh.accepted)],
        accepted := sh.accepted + 1)
  }

  /** Closing for `failure`, unless it has closed already. */
  function Failing(sh: Shared, failure: Failure, turnedAway: bool): Shared {
    if sh.closed then sh else sh.(closed := true, turnedAway := turnedAway, failure := failure)
  }

  function Popped(sh: Shared): Shared
    requires sh.waiting != []
  {
    sh.(waiting := sh.waiting[1..])
  }

  /** What an error in parsing closes the connection for; not every error is caught as one. */
  function Raising(error: ParseError): Option<Failure> {
    if error.NumberTooLong? then None else Some(Malformed(error))
  }

  /** Closing once `response` has been taken, if it says so. */
  function Closing(sh: Shared, response: Response): Shared {
    if response.closesConnection then Failing(sh, ClosedByPeer, true) else sh
  }

  /** What the requests left waiting each fail with: the first with the failure itself. */
  function Failures(left: seq<Asked>, failure: Failure, first: bool): seq<Completion> {
    if left == [] then []
    else [Completion(left[0].ticket, Failed(if first then failure else After(failure)))] +
         Failures(left[1..], failure, false)
  }

  // ---- The connection's methods, on one thread ----------------------------

  datatype Delivery = Delivery(shared: Shared, buffer: Octets, completions: seq<Completion>, error: Option<ParseError>)

  /** Every waiting request whose response has arrived, completed. */
  function Delivered(d: Delivery, rules: Rules): Delivery
    decreases |d.shared.waiting|
  {
    if d.shared.closed || d.shared.waiting == [] then d
    else
      var oldest := d.shared.waiting[0];
      match Next(d.buffer, oldest.request, rules)
      case Waits(rest) => d.(buffer := rest)
      case Fails(error, rest) => d.(buffer := rest, error := Some(error))
      case Responds(response, rest) =>
        Delivered(Delivery(Closing(Popped(d.shared), response), rest,
                           d.completions + [Completion(oldest.ticket, Answered(response))], d.error), rules)
  }

  class PeerConnection {
    const parser: ResponseParser
    var waiting: seq<Asked>
    var outgoing: seq<Message>
    var accepted: nat
    var closed: bool
    var turnedAway: bool
    var failure: Failure
    /** The futures completed, oldest first. */
    var completions: seq<Completion>

    function State(): Shared
      reads this
    {
      Shared(waiting, outgoing, accepted, closed, turnedAway, failure)
    }

    constructor (maxBodyBytes: nat)
      ensures State() == OPENED && completions == []
      ensures fresh(parser) && parser.buffer == [] && parser.rules == Http(maxBodyBytes)
    {
      parser := new ResponseParser(maxBodyBytes);
      waiting, outgoing, accepted := [], [], 0;
      closed, turnedAway, failure := false, false, ClosedByPeer;
      completions := [];
    }

    method Request(request: RequestLine) returns (ticket: Option<nat>)
      modifies this
      ensures completions == old(completions)
      ensures ticket.Some? <==> !old(closed)
      ensures ticket.Some? ==> ticket.value == old(accepted) && State() == Accepting(old(State()), request)
      ensures ticket.None? ==> State() == old(State())
    {
      if closed {
        return None;
      }
      ticket := Some(accepted);
      waiting := waiting + [Asked(accepted, request)];
      outgoing := outgoing + [Data(accepted)];
      accepted := accepted + 1;
    }

    method Fail(error: Failure, away: bool)
      modifies this
      ensures completions == old(completions)
      ensures State() == var failed := Failing(old(State()), error, away);
                         if old(closed) then failed else failed.(outgoing := old(outgoing) + [Stop])
    {
      if closed {
        return;
      }
      closed, turnedAway, failure := true, away, error;
      outgoing := outgoing + [Stop];
    }

    method Complete(response: Response)
      requires waiting != []
      modifies this
      ensures completions == old(completions) + [Completion(old(waiting)[0].ticket, Answered(response))]
      ensures State().(outgoing := []) == Closing(Popped(old(State())), response).(outgoing := [])
      ensures outgoing == old(outgoing) || (response.closesConnection && outgoing == old(outgoing) + [Stop])
    {
      var oldest := waiting[0];
      waiting := waiting[1..];
      if response.closesConnection {
        Fail(ClosedByPeer, true);
      }
      completions := completions + [Completion(oldest.ticket, Answered(response))];
    }

    /** Where no other thread comes between, delivers every response that has arrived. */
    method Deliver() returns (error: Option<Failure>, uncaught: bool)
      modifies this, parser
      ensures var d := Delivered(Delivery(old(State()), old(parser.buffer), old(completions), None), parser.rules);
              && State().(outgoing := []) == d.shared.(outgoing := [])
              && completions == d.completions && parser.buffer == d.buffer
              && error == (match d.error
                           case Some(e) => Raising(e)
                           case None => if !d.shared.closed && d.shared.waiting == [] && d.buffer != []
                                        then Some(Unasked) else None)
              && (uncaught <==> d.error == Some(NumberTooLong))
    {
      ghost var start := Delivery(State(), parser.buffer, completions, None);
      ghost var now := start;
      error, uncaught := None, false;
      while !closed && waiting != []
        invariant now == Delivery(State().(outgoing := start.shared.outgoing), parser.buffer, completions, None)
        invariant Delivered(now, parser.rules) == Delivered(start, parser.rules)
        decreases |waiting|
      {
        var result := parser.NextResponse(waiting[0].request);
        match result {
          case Failure(e) =>
            return Raising(e), e.NumberTooLong?;
          case Success(None) =>
            return None, false;
          case Success(Some(response)) =>
            Complete(response);
            now := Delivery(State().(outgoing := start.shared.outgoing), parser.buffer, completions, None);
        }
      }
      if parser.buffer != [] && !closed {
        error := Some(Unasked);
      }
    }

    /** Gives every request still waiting its failure. */
    method FailWaiting()
      modifies this
      ensures completions == old(completions) + Failures(old(waiting), failure, true)
      ensures State() == old(State()).(waiting := [])
    {
      var left := waiting;
      waiting := [];
      var index := 0;
      while index < |left|
        invariant 0 <= index <= |left|
        invariant waiting == [] && State() == old(State()).(waiting := [])
        invariant completions + Failures(left[index..], failure, index == 0) ==
                  old(completions) + Failures(left, failure, true)
      {
        assert left[index..][1..] == left[index + 1..];
        ghost var after := Failures(left[index + 1..], failure, false);
        var outcome := Failed(if index == 0 then failure else After(failure));
        assert completions + ([Completion(left[index].ticket, outcome)] + after) ==
               (completions + [Completion(left[index].ticket, outcome)]) + after;
        completions := completions + [Completion(left[index].ticket, outcome)];
        index := index + 1;
      }
      assert left[index..] == [];
    }
  }

  // ---- The same, as steps its threads may interleave ----------------------

  /** What the parser gives for the request asked for, before and once the stream has ended. */
  datatype Parser = Parser(next: (Octets, RequestLine) -> Step, finish: (Octets, RequestLine) -> End)

  function Under(rules: Rules): Parser {
    Parser((buffer, request) => Next(buffer, request, rules), (buffer, request) => Finished(buffer, request, rules))
  }

  /** Where the receive thread stands. */
  datatype Receiver =
    | Looping
    | Awaiting
    | Delivering
    | Asking
    | Parsing(oldest: Asked)
    | Surplus
    | Ending
    | Finishing(oldest: Asked)
    | Completing(oldest: Asked, response: Response, ending: bool)
    | Shutting(oldest: Asked, response: Response, ending: bool)
    | Setting(oldest: Asked, response: Response, ending: bool)
    | Raised(failure: Failure)
    | Leaving
    | Collecting
    | SettingFailures(left: seq<Asked>, first: bool)
    | Joining
    | Done

  datatype Sender = Getting | Got(message: Message) | Sending(ticket: nat) | Stopped

  /**
   A connection, with what has come of it so far: the requests accepted, those sent,
   the bytes received, the responses parsed from them and the futures completed.
   `stopDue` is whether the thread that closed it has yet to say so to the sender.
   */
  datatype Connection = Connection(
    shared: Shared,
    stopDue: bool,
    buffer: Octets,
    receiver: Receiver,
    sender: Sender,
    requests: seq<RequestLine>,
    sent: seq<nat>,
    received: Octets,
    responses: seq<Response>,
    completions: seq<Completion>)

  const CONNECTED := Connection(OPENED, false, [], Looping, Getting, [], [], [], [], [])

  /** What waiting on the socket comes to. */
  datatype Event = Silence | Bytes(data: Octets) | Eof | ReceiveError | TimeOut

  datatype Action =
    | Request(request: RequestLine)
    | Close
    | PutStop
    | SenderMoves(sends: bool)
    | ReceiverMoves(event: Event)

  function WithFailure(s: Connection, failure: Failure, turnedAway: bool): Connection {
    s.(shared := Failing(s.shared, failure, turnedAway), stopDue := s.stopDue || !s.shared.closed)
  }

  predicate Enabled(s: Connection, action: Action) {
    match action
    case Request(_) => true
    case Close => true
    case PutStop => s.stopDue
    case SenderMoves(_) => !s.sender.Stopped? && (s.sender.Getting? ==> s.shared.outgoing != [])
    case ReceiverMoves(event) =>
      && !s.receiver.Done?
      && (s.receiver.Joining? ==> s.sender.Stopped?)
      && (s.receiver.Awaiting? && event.Bytes? ==> event.data != [])
      && (s.receiver.Awaiting? && event.TimeOut? ==> s.shared.waiting != [])
  }

  function Sends(s: Connection, sends: bool): Connection
    requires Enabled(s, SenderMoves(sends))
  {
    match s.sender
    case Getting => s.(shared := s.shared.(outgoing := s.shared.outgoing[1..]), sender := Got(s.shared.outgoing[0]))
    case Got(message) => s.(sender := if message.Stop? || s.shared.closed then Stopped else Sending(message.ticket))
    case Sending(ticket) =>
      if sends then s.(sent := s.sent + [ticket], sender := Getting)
      else WithFailure(s, SendingFailed, false).(sender := Stopped)
  }

  /** What the socket gives the receive thread. */
  function Hears(s: Connection, event: Event): Connection {
    match event
    case Silence => s.(receiver := Looping)
    case Bytes(data) => s.(buffer := s.buffer + data, received := s.received + data, receiver := Delivering)
    case Eof => s.(receiver := Ending)
    case ReceiveError => s.(receiver := Raised(ReceivingFailed))
    case TimeOut => s.(receiver := Raised(NoProgress))
  }

  function Broke(s: Connection, error: ParseError): Connection {
    s.(receiver := match Raising(error) case Some(failure) => Raised(failure) case None => Leaving)
  }

  function Parses(s: Connection, oldest: Asked, parse: Parser): Connection {
    match parse.next(s.buffer, oldest.request)
    case Waits(rest) => s.(buffer := rest, receiver := Looping)
    case Fails(error, rest) => Broke(s.(buffer := rest), error)
    case Responds(response, rest) =>
      s.(buffer := rest, responses := s.responses + [response], receiver := Completing(oldest, response, false))
  }

  function Finishes(s: Connection, oldest: Asked, parse: Parser): Connection {
    match parse.finish(s.buffer, oldest.request)
    case Nothing => s.(receiver := Leaving)
    case Ends(Responds(response, rest)) =>
      s.(buffer := rest, responses := s.responses + [response], receiver := Completing(oldest, response, true))
    case Ends(Fails(error, rest)) => Broke(s.(buffer := rest), error)
    case Ends(Waits(rest)) => s.(receiver := Leaving)
  }

  function Pops(s: Connection, oldest: Asked, response: Response, ending: bool): Connection {
    if s.shared.waiting == [] then s.(receiver := Leaving)
    else s.(shared := Popped(s.shared), receiver := Shutting(oldest, response, ending))
  }

  function Shuts(s: Connection, oldest: Asked, response: Response, ending: bool): Connection {
    (if response.closesConnection then WithFailure(s, ClosedByPeer, true) else s)
    .(receiver := Setting(oldest, response, ending))
  }

  function Sets(s: Connection, oldest: Asked, response: Response, ending: bool): Connection {
    s.(completions := s.completions + [Completion(oldest.ticket, Answered(response))],
       receiver := if ending then Leaving else Delivering)
  }

  function SetsFailure(s: Connection, left: seq<Asked>, first: bool): Connection {
    if left == [] then s.(receiver := Joining)
    else
      var failure := if first then s.shared.failure else After(s.shared.failure);
      s.(completions := s.completions + [Completion(left[0].ticket, Failed(failure))],
         receiver := SettingFailures(left[1..], false))
  }

  function Receives(s: Connection, event: Event, parse: Parser): Connection
    requires Enabled(s, ReceiverMoves(event))
  {
    var waiting := s.shared.waiting;
    match s.receiver
    case Looping => s.(receiver := if s.shared.closed then Leaving else Awaiting)
    case Awaiting => Hears(s, event)
    case Delivering => s.(receiver := if s.shared.closed then Surplus else Asking)
    case Asking => s.(receiver := if waiting == [] then Surplus else Parsing(waiting[0]))
    case Parsing(oldest) => Parses(s, oldest, parse)
    case Surplus => s.(receiver := if s.buffer != [] && !s.shared.closed then Raised(Unasked) else Looping)
    case Ending => s.(receiver := if waiting == [] then Leaving else Finishing(waiting[0]))
    case Finishing(oldest) => Finishes(s, oldest, parse)
    case Completing(oldest, response, ending) => Pops(s, oldest, response, ending)
    case Shutting(oldest, response, ending) => Shuts(s, oldest, response, ending)
    case Setting(oldest, response, ending) => Sets(s, oldest, response, ending)
    case Raised(failure) => WithFailure(s, failure, false).(receiver := Leaving)
    case Leaving => WithFailure(s, ClosedByPeer, false).(receiver := Collecting)
    case Collecting => s.(shared := s.shared.(waiting := []), receiver := SettingFailures(waiting, true))
    case SettingFailures(left, first) => SetsFailure(s, left, first)
    case Joining => s.(receiver := Done)
    case Done => s
  }

  function Take(s: Connection, action: Action, parse: Parser): Connection
    requires Enabled(s, action)
  {
    match action
    case Request(request) =>
      if s.shared.closed then s
      else s.(shared := Accepting(s.shared, request), requests := s.requests + [request])
    case Close => WithFailure(s, ClosedLocally, false)
    case PutStop => s.(shared := s.shared.(outgoing := s.shared.outgoing + [Stop]), stopDue := false)
    case SenderMoves(sends) => Sends(s, sends)
    case ReceiverMoves(event) => Receives(s, event, parse)
  }

  /** Whether `actions` can be taken one after another, and where they lead. */
  predicate CanRun(s: Connection, actions: seq<Action>, parse: Parser)
    decreases |actions|
  {
    actions == [] || (Enabled(s, actions[0]) && CanRun(Take(s, actions[0], parse), actions[1..], parse))
  }

  function Run(s: Connection, actions: seq<Action>, parse: Parser): Connection
    requires CanRun(s, actions, parse)
    decreases |actions|
  {
    if actions == [] then s else Run(Take(s, actions[0], parse), actions[1..], parse)
  }
}
