/** The responses a connection gives are those the bytes it received hold, however it is scheduled. */
module Pairings {
  import opened Wrappers
  import opened Octets
  import opened Responses
  import opened Cutting
  import opened Connections
  import Pipelining
  import Wires

  // ---- Asking for more does not change what was parsed --------------------

  lemma {:induction false} DrainSettles(s: Session, rules: Rules)
    requires s.error.None?
    ensures var d := Drain(s, rules);
            d.error.None? && d.requests != [] ==> Next(d.buffer, d.requests[0], rules) == Waits(d.buffer)
    ensures s.responses <= Drain(s, rules).responses
    decreases |s.requests|
  {
    if s.requests != [] {
      match Next(s.buffer, s.requests[0], rules) {
        case Waits(rest) => WaitsAgain(s.buffer, s.requests[0], rules);
        case Fails(_, _) =>
        case Responds(response, rest) =>
          DrainSettles(Session(rest, s.requests[1..], s.responses + [response], None), rules);
      }
    }
  }

  lemma WaitsAgain(b: Octets, request: RequestLine, rules: Rules)
    requires Next(b, request, rules).Waits?
    ensures var rest := Next(b, request, rules).buffer; Next(rest, request, rules) == Waits(rest)
  {
    NextMore(b, [], request, rules);
    assert b + [] == b && Next(b, request, rules).buffer + [] == Next(b, request, rules).buffer;
  }

  lemma WaitsForAll(request: RequestLine, rules: Rules)
    ensures Next([], request, rules) == Waits([])
  {
    assert Find([], HEAD_END, 0, MAX_HEAD_BYTES) == None;
  }

  function Wanting(s: Session, more: seq<RequestLine>, rules: Rules): Session {
    if s.error.Some? then s else Drain(s.(requests := s.requests + more), rules)
  }

  lemma {:induction false} DrainWanting(s: Session, more: seq<RequestLine>, rules: Rules)
    requires s.error.None?
    ensures Agree(Wanting(Drain(s, rules), more, rules), Drain(s.(requests := s.requests + more), rules))
    decreases |s.requests|
  {
    if s.requests != [] {
      var all := s.requests + more;
      assert all[0] == s.requests[0] && all[1..] == s.requests[1..] + more;
      match Next(s.buffer, s.requests[0], rules) {
        case Waits(rest) => WaitsAgain(s.buffer, s.requests[0], rules);
        case Fails(_, _) =>
        case Responds(response, rest) =>
          DrainWanting(Session(rest, s.requests[1..], s.responses + [response], None), more, rules);
      }
    }
  }

  // ---- What has been received, and what of it is left ---------------------

  function Stream(s: Connection): Session {
    Session(s.received, s.requests, [], None)
  }

  function Rest(s: Connection): Session
    requires |s.responses| <= |s.requests|
  {
    Session(s.buffer, s.requests[|s.responses|..], s.responses, None)
  }

  predicate Live(r: Receiver) {
    match r
    case Completing(_, _, ending) => !ending
    case Shutting(_, _, ending) => !ending
    case Setting(_, _, ending) => !ending
    case Raised(_) => false
    case Leaving => false
    case Collecting => false
    case SettingFailures(_, _) => false
    case Joining => false
    case Done => false
    case _ => true
  }

  /** Nothing buffered is a whole response to a request waiting. */
  predicate Still(s: Connection, rules: Rules) {
    s.buffer == [] ||
    (|s.responses| < |s.requests| && Next(s.buffer, s.requests[|s.responses|], rules) == Waits(s.buffer))
  }

  /** The last response, all but it being those of `d`, ran until the peer closed the connection. */
  predicate EndedAfter(d: Session, responses: seq<Response>, requests: seq<RequestLine>, rules: Rules) {
    && 0 < |responses| <= |requests|
    && var n := |responses| - 1;
       && d.error.None? && d.responses == responses[..n] && d.requests == requests[n..]
       && Finished(d.buffer, requests[n], rules) == Ends(Responds(responses[n], []))
  }

  predicate EndedByClosing(s: Connection, rules: Rules) {
    EndedAfter(Drain(Stream(s), rules), s.responses, s.requests, rules)
  }

  /** The responses given are the first of those all the bytes received hold, in order. */
  predicate Given(s: Connection, rules: Rules) {
    s.responses <= Drain(Stream(s), rules).responses || EndedByClosing(s, rules)
  }

  predicate Paired(s: Connection, rules: Rules) {
    && |s.responses| <= |s.requests|
    && (Live(s.receiver) ==> Agree(Drain(Stream(s), rules), Drain(Rest(s), rules)))
    && (s.receiver.Awaiting? || s.receiver.Ending? || s.receiver.Finishing? ==> Still(s, rules))
    && (s.receiver.Looping? ==> s.shared.closed || Still(s, rules))
    && Given(s, rules)
  }

  lemma StillIsDrained(s: Connection, rules: Rules)
    requires |s.responses| <= |s.requests| && Still(s, rules)
    ensures Drain(Rest(s), rules) == Rest(s)
  {
    if |s.responses| < |s.requests| {
      WaitsForAll(s.requests[|s.responses|], rules);
    }
  }

  lemma AgreeingIsGiven(s: Connection, rules: Rules)
    requires |s.responses| <= |s.requests|
    requires Agree(Drain(Stream(s), rules), Drain(Rest(s), rules))
    ensures Given(s, rules)
  {
    DrainSettles(Rest(s), rules);
  }

  lemma RequestKeepsPaired(s: Connection, request: RequestLine, rules: Rules)
    requires Paired(s, rules) && !s.shared.closed
    ensures Paired(Take(s, Request(request), Under(rules)), rules)
  {
    var after := Take(s, Request(request), Under(rules));
    DrainWanting(Stream(s), [request], rules);
    DrainWanting(Rest(s), [request], rules);
    DrainSettles(Stream(s), rules);
    var d := Drain(Stream(s), rules);
    if d.error.None? {
      DrainSettles(d.(requests := d.requests + [request]), rules);
    }
    assert after.requests[|s.responses|..] == s.requests[|s.responses|..] + [request];
    assert Stream(after) == Stream(s).(requests := s.requests + [request]);
    assert Rest(after) == Rest(s).(requests := Rest(s).requests + [request]);
    if EndedByClosing(s, rules) {
      EndedKeepsEnded(s, after, request, rules);
    }
  }

  /** Where parsing waits on a request, more requests wait behind it. */
  lemma {:induction false} DrainWaitsOn(t: Session, more: seq<RequestLine>, rules: Rules)
    requires t.error.None? && Drain(t, rules).error.None? && Drain(t, rules).requests != []
    ensures Drain(t.(requests := t.requests + more), rules) ==
            Drain(t, rules).(requests := Drain(t, rules).requests + more)
    decreases |t.requests|
  {
    var all := t.requests + more;
    assert all[0] == t.requests[0] && all[1..] == t.requests[1..] + more;
    match Next(t.buffer, t.requests[0], rules) {
      case Waits(_) =>
      case Fails(_, _) =>
      case Responds(response, rest) =>
        DrainWaitsOn(Session(rest, t.requests[1..], t.responses + [response], None), more, rules);
    }
  }

  lemma EndedAfterMore(d: Session, responses: seq<Response>, requests: seq<RequestLine>, more: seq<RequestLine>, rules: Rules)
    requires EndedAfter(d, responses, requests, rules)
    ensures EndedAfter(d.(requests := d.requests + more), responses, requests + more, rules)
  {
    var n := |responses| - 1;
    assert (requests + more)[n..] == requests[n..] + more;
  }

  lemma EndedKeepsEnded(s: Connection, after: Connection, request: RequestLine, rules: Rules)
    requires EndedByClosing(s, rules)
    requires after.responses == s.responses && after.received == s.received && after.requests == s.requests + [request]
    ensures EndedByClosing(after, rules)
  {
    DrainWaitsOn(Stream(s), [request], rules);
    EndedAfterMore(Drain(Stream(s), rules), s.responses, s.requests, [request], rules);
    assert Stream(after) == Stream(s).(requests := s.requests + [request]);
  }

  lemma BytesKeepPaired(s: Connection, data: Octets, rules: Rules)
    requires Paired(s, rules) && s.receiver.Awaiting?
    ensures Paired(Hears(s, Bytes(data)), rules)
  {
    var after := Hears(s, Bytes(data));
    DrainMore(Stream(s), data, rules);
    DrainMore(Rest(s), data, rules);
    AgreeingIsGiven(after, rules);
  }

  lemma ParsingKeepsPaired(s: Connection, rules: Rules)
    requires Paired(s, rules) && s.receiver.Parsing?
    requires |s.responses| < |s.requests| && s.receiver.oldest.request == s.requests[|s.responses|]
    ensures Paired(Parses(s, s.receiver.oldest, Under(rules)), rules)
  {
    var after := Parses(s, s.receiver.oldest, Under(rules));
    var request := s.receiver.oldest.request;
    assert Rest(s).requests[0] == request;
    match Next(s.buffer, request, rules) {
      case Waits(rest) =>
        WaitsAgain(s.buffer, request, rules);
        StillIsDrained(after, rules);
      case Fails(error, rest) =>
      case Responds(response, rest) =>
        assert Rest(s).requests[1..] == Rest(after).requests;
        AgreeingIsGiven(after, rules);
    }
  }

  lemma FinishingKeepsPaired(s: Connection, rules: Rules)
    requires Paired(s, rules) && s.receiver.Finishing?
    requires |s.responses| < |s.requests| && s.receiver.oldest.request == s.requests[|s.responses|]
    ensures Paired(Finishes(s, s.receiver.oldest, Under(rules)), rules)
  {
    var request := s.receiver.oldest.request;
    StillIsDrained(s, rules);
    FinishedTakesAll(s.buffer, request, rules);
    match Finished(s.buffer, request, rules) {
      case Ends(Responds(response, rest)) =>
        EndsPaired(s, response, Finishes(s, s.receiver.oldest, Under(rules)), rules);
      case _ =>
    }
  }

  lemma EndsPaired(s: Connection, response: Response, after: Connection, rules: Rules)
    requires |s.responses| < |s.requests| && Agree(Drain(Stream(s), rules), Rest(s))
    requires Finished(s.buffer, s.requests[|s.responses|], rules) == Ends(Responds(response, []))
    requires after.received == s.received && after.requests == s.requests
    requires after.responses == s.responses + [response]
    ensures EndedByClosing(after, rules)
  {
    assert after.responses[..|s.responses|] == s.responses;
  }

  lemma FinishedTakesAll(b: Octets, request: RequestLine, rules: Rules)
    ensures var end := Finished(b, request, rules); end.Ends? && end.step.Responds? ==> end.step.buffer == []
  {
  }

  /** Steps that parse nothing leave what was parsed alone. */
  lemma OthersKeepPaired(s: Connection, after: Connection, rules: Rules)
    requires Paired(s, rules)
    requires after.received == s.received && after.requests == s.requests
    requires after.responses == s.responses && after.buffer == s.buffer
    requires Live(after.receiver) ==> Live(s.receiver)
    requires after.receiver.Awaiting? || after.receiver.Ending? || after.receiver.Finishing? ==> Still(s, rules)
    requires after.receiver.Looping? ==> after.shared.closed || Still(s, rules)
    ensures Paired(after, rules)
  {
    assert Stream(after) == Stream(s) && Rest(after) == Rest(s);
    assert Given(after, rules);
  }

  lemma OldestIsNext(s: Connection)
    requires Pipelining.Safe(s) && (s.receiver.Parsing? || s.receiver.Finishing?)
    ensures |s.responses| < |s.requests| && s.receiver.oldest.request == s.requests[|s.responses|]
  {
    assert Pipelining.Pending(s)[0] == s.receiver.oldest;
  }

  lemma ReceivingKeepsPaired(s: Connection, event: Event, rules: Rules)
    requires Paired(s, rules) && Pipelining.Safe(s) && Enabled(s, ReceiverMoves(event))
    ensures Paired(Receives(s, event, Under(rules)), rules)
  {
    if s.receiver.Parsing? {
      OldestIsNext(s);
      ParsingKeepsPaired(s, rules);
    } else if s.receiver.Finishing? {
      OldestIsNext(s);
      FinishingKeepsPaired(s, rules);
    } else if s.receiver.Awaiting? && event.Bytes? {
      BytesKeepPaired(s, event.data, rules);
    } else {
      WalkingKeepsPaired(s, event, Under(rules), Receives(s, event, Under(rules)), rules);
    }
  }

  /** The receive thread's other steps parse nothing. */
  lemma WalkingParsesNothing(s: Connection, event: Event, parse: Parser)
    requires Enabled(s, ReceiverMoves(event))
    requires !s.receiver.Parsing? && !s.receiver.Finishing? && !(s.receiver.Awaiting? && event.Bytes?)
    ensures var after := Receives(s, event, parse);
            && after.received == s.received && after.requests == s.requests
            && after.responses == s.responses && after.buffer == s.buffer
  {
  }

  /** Where those steps lead, what is awaited or looked for again is as it was, or nothing is buffered. */
  lemma WalkingLeads(s: Connection, event: Event, parse: Parser)
    requires Enabled(s, ReceiverMoves(event))
    requires !s.receiver.Parsing? && !s.receiver.Finishing? && !(s.receiver.Awaiting? && event.Bytes?)
    ensures var after := Receives(s, event, parse);
            && (Live(after.receiver) ==> Live(s.receiver))
            && (after.receiver.Awaiting? ==> s.receiver.Looping? && !s.shared.closed)
            && (after.receiver.Ending? ==> s.receiver.Awaiting?)
            && (after.receiver.Finishing? ==> s.receiver.Ending?)
            && (after.receiver.Looping? ==> s.receiver.Awaiting? || (s.receiver.Surplus? && (s.buffer == [] || after.shared.closed)))
  {
  }

  lemma WalkingKeepsPaired(s: Connection, event: Event, parse: Parser, after: Connection, rules: Rules)
    requires Paired(s, rules) && Enabled(s, ReceiverMoves(event)) && after == Receives(s, event, parse)
    requires !s.receiver.Parsing? && !s.receiver.Finishing? && !(s.receiver.Awaiting? && event.Bytes?)
    ensures Paired(after, rules)
  {
    WalkingParsesNothing(s, event, parse);
    WalkingLeads(s, event, parse);
    OthersKeepPaired(s, after, rules);
  }

  lemma ActionKeepsPaired(s: Connection, action: Action, rules: Rules)
    requires Paired(s, rules) && Pipelining.Safe(s) && Enabled(s, action)
    ensures Paired(Take(s, action, Under(rules)), rules)
  {
    if action.ReceiverMoves? {
      ReceivingKeepsPaired(s, action.event, rules);
    } else if action.Request? && !s.shared.closed {
      RequestKeepsPaired(s, action.request, rules);
    } else {
      OthersKeepPaired(s, Take(s, action, Under(rules)), rules);
    }
  }

  lemma {:induction false} RunKeepsPaired(s: Connection, actions: seq<Action>, rules: Rules)
    requires Paired(s, rules) && Pipelining.Sound(s) && CanRun(s, actions, Under(rules))
    ensures Paired(Run(s, actions, Under(rules)), rules)
    decreases |actions|
  {
    if actions != [] {
      Pipelining.RulesAnswer(rules);
      Pipelining.ActionKeepsSound(s, actions[0], Under(rules));
      ActionKeepsPaired(s, actions[0], rules);
      RunKeepsPaired(Take(s, actions[0], Under(rules)), actions[1..], rules);
    }
  }

  /**
   However the threads and callers interleave, and however the bytes came in pieces, the
   responses given are the first of those that all the bytes received hold for the
   requests accepted, and all of them while it waits for more; but for a last one, which
   may have run until the peer closed the connection.
   */
  lemma EveryRunGivesWhatCame(actions: seq<Action>, rules: Rules)
    requires CanRun(CONNECTED, actions, Under(rules))
    ensures var s := Run(CONNECTED, actions, Under(rules));
            && Given(s, rules)
            && (s.receiver.Awaiting? ==>
                  s.responses == Drain(Stream(s), rules).responses && Drain(Stream(s), rules).error.None?)
  {
    RunKeepsPaired(CONNECTED, actions, rules);
    var s := Run(CONNECTED, actions, Under(rules));
    if s.receiver.Awaiting? {
      StillIsDrained(s, rules);
    }
  }

  /** Answers sent in the order of their requests each reach their own, once they have come. */
  lemma AnswersReachTheirRequests(actions: seq<Action>, sent: seq<Wires.Sent>, tail: Octets, rules: Rules)
    requires CanRun(CONNECTED, actions, Under(rules))
    requires forall i :: 0 <= i < |sent| ==> Wires.IsSent(sent[i], rules)
    requires var s := Run(CONNECTED, actions, Under(rules));
             && s.receiver.Awaiting?
             && s.received == Wires.SentBytes(sent) + tail && Wires.SentRequests(sent) <= s.requests
    ensures Wires.SentResponses(sent) <= Run(CONNECTED, actions, Under(rules)).responses
  {
    var s := Run(CONNECTED, actions, Under(rules));
    var more := s.requests[|sent|..];
    EveryRunGivesWhatCame(actions, rules);
    Wires.PipelinedAnswersRead(sent, more, tail, [], rules);
    assert Wires.SentRequests(sent) + more == s.requests;
    assert [] + Wires.SentResponses(sent) == Wires.SentResponses(sent);
    DrainSettles(Session(tail, more, Wires.SentResponses(sent), None), rules);
  }

  // ---- Delivering in one go is delivering step by step --------------------

  const MOVE := ReceiverMoves(Silence)

  lemma MovesThen(s: Connection, rest: seq<Action>, parse: Parser)
    requires Enabled(s, MOVE) && CanRun(Take(s, MOVE, parse), rest, parse)
    ensures CanRun(s, [MOVE] + rest, parse)
    ensures Run(s, [MOVE] + rest, parse) == Run(Take(s, MOVE, parse), rest, parse)
  {
    assert ([MOVE] + rest)[1..] == rest;
  }

  /** Where delivering leaves the receive thread. */
  function Outcome(d: Delivery): Receiver {
    match d.error
    case Some(error) => (match Raising(error) case Some(failure) => Raised(failure) case None => Leaving)
    case None => if d.shared.waiting == [] && d.buffer != [] && !d.shared.closed then Raised(Unasked) else Looping
  }

  function Now(s: Connection): Delivery {
    Delivery(s.shared, s.buffer, s.completions, None)
  }

  /** The connection with its delivery done, as its receive thread alone does it. */
  predicate DeliveredAs(s: Connection, d: Delivery) {
    s.shared == d.shared && s.buffer == d.buffer && s.completions == d.completions && s.receiver == Outcome(d)
  }

  lemma StopsDelivering(s: Connection, rules: Rules) returns (actions: seq<Action>)
    requires s.receiver.Delivering?
    requires s.shared.closed || s.shared.waiting == []
    ensures CanRun(s, actions, Under(rules))
    ensures DeliveredAs(Run(s, actions, Under(rules)), Delivered(Now(s), rules))
  {
    var parse := Under(rules);
    actions := [];
    var one := Take(s, MOVE, parse);
    var two := Take(one, MOVE, parse);
    if s.shared.closed {
      MovesThen(one, [], parse);
      MovesThen(s, [MOVE], parse);
      actions := [MOVE] + [MOVE];
    } else {
      MovesThen(two, [], parse);
      MovesThen(one, [MOVE], parse);
      MovesThen(s, [MOVE] + [MOVE], parse);
      actions := [MOVE] + ([MOVE] + [MOVE]);
    }
  }

  /** The connection after the receive thread has looked for the oldest request's response. */
  function Looked(s: Connection, rules: Rules): Connection
    requires s.shared.waiting != []
  {
    Parses(s.(receiver := Parsing(s.shared.waiting[0])), s.shared.waiting[0], Under(rules))
  }

  lemma LooksThen(s: Connection, rest: seq<Action>, rules: Rules) returns (actions: seq<Action>)
    requires s.receiver.Delivering? && !s.shared.closed && s.shared.waiting != []
    requires CanRun(Looked(s, rules), rest, Under(rules))
    ensures CanRun(s, actions, Under(rules))
    ensures Run(s, actions, Under(rules)) == Run(Looked(s, rules), rest, Under(rules))
  {
    var parse := Under(rules);
    var asking := s.(receiver := Asking);
    var parsing := s.(receiver := Parsing(s.shared.waiting[0]));
    MovesThen(parsing, rest, parse);
    MovesThen(asking, [MOVE] + rest, parse);
    MovesThen(s, [MOVE] + ([MOVE] + rest), parse);
    actions := [MOVE] + ([MOVE] + ([MOVE] + rest));
  }

  /** The connection after the receive thread has completed the oldest request. */
  function Completes(s: Connection, oldest: Asked, response: Response): Connection
    requires s.shared.waiting != []
  {
    Sets(Shuts(Pops(s, oldest, response, false), oldest, response, false), oldest, response, false)
  }

  lemma CompletesThen(s: Connection, oldest: Asked, response: Response, rest: seq<Action>, parse: Parser)
    returns (actions: seq<Action>)
    requires s.receiver == Completing(oldest, response, false) && s.shared.waiting != []
    requires CanRun(Completes(s, oldest, response), rest, parse)
    ensures CanRun(s, actions, parse)
    ensures Run(s, actions, parse) == Run(Completes(s, oldest, response), rest, parse)
  {
    var shutting := Pops(s, oldest, response, false);
    var setting := Shuts(shutting, oldest, response, false);
    MovesThen(setting, rest, parse);
    MovesThen(shutting, [MOVE] + rest, parse);
    MovesThen(s, [MOVE] + ([MOVE] + rest), parse);
    actions := [MOVE] + ([MOVE] + ([MOVE] + rest));
  }

  /** What delivering in one go does, the receive thread's steps do with no other between. */
  lemma {:induction false} DeliveringIsItsSteps(s: Connection, rules: Rules) returns (actions: seq<Action>)
    requires s.receiver.Delivering?
    ensures CanRun(s, actions, Under(rules))
    ensures DeliveredAs(Run(s, actions, Under(rules)), Delivered(Now(s), rules))
    decreases |s.shared.waiting|
  {
    if s.shared.closed || s.shared.waiting == [] {
      actions := StopsDelivering(s, rules);
      return;
    }
    var oldest := s.shared.waiting[0];
    var looked := Looked(s, rules);
    match Next(s.buffer, oldest.request, rules) {
      case Waits(rest) => actions := LooksThen(s, [], rules);
      case Fails(error, rest) => actions := LooksThen(s, [], rules);
      case Responds(response, rest) =>
        var after := Completes(looked, oldest, response);
        var others := DeliveringIsItsSteps(after, rules);
        var completing := CompletesThen(looked, oldest, response, others, Under(rules));
        actions := LooksThen(s, completing, rules);
    }
  }
}
