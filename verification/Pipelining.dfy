/** What every interleaving of a connection's threads and callers keeps. */
module Pipelining {
  import opened Wrappers
  import opened Octets
  import opened Responses
  import opened Cutting
  import opened Connections

  // ---- Tickets: each request completes once, in order ----------------------

  /** What has left the queue of waiting requests, and is yet to complete. */
  function InHand(r: Receiver): seq<Asked> {
    match r
    case Shutting(oldest, _, _) => [oldest]
    case Setting(oldest, _, _) => [oldest]
    case SettingFailures(left, _) => left
    case _ => []
  }

  function Pending(s: Connection): seq<Asked> {
    InHand(s.receiver) + s.shared.waiting
  }

  /** Completed and pending, the requests accepted are each there once, in order. */
  predicate InTurn(done: seq<Completion>, pending: seq<Asked>, requests: seq<RequestLine>) {
    && |done| + |pending| == |requests|
    && (forall i :: 0 <= i < |done| ==> done[i].ticket == i)
    && (forall i :: 0 <= i < |pending| ==> pending[i] == Asked(|done| + i, requests[|done| + i]))
  }

  predicate Ticketed(s: Connection) {
    InTurn(s.completions, Pending(s), s.requests) && |s.requests| == s.shared.accepted
  }

  lemma OneDone(done: seq<Completion>, pending: seq<Asked>, requests: seq<RequestLine>, outcome: Outcome)
    requires InTurn(done, pending, requests) && pending != []
    ensures InTurn(done + [Completion(pending[0].ticket, outcome)], pending[1..], requests)
  {
    var left := pending[1..];
    forall i | 0 <= i < |left|
      ensures left[i] == Asked(|done| + 1 + i, requests[|done| + 1 + i])
    {
      assert left[i] == pending[i + 1];
    }
  }

  predicate HoldsOldest(s: Connection) {
    match s.receiver
    case Parsing(oldest) => s.shared.waiting != [] && oldest == s.shared.waiting[0]
    case Finishing(oldest) => s.shared.waiting != [] && oldest == s.shared.waiting[0]
    case Completing(oldest, _, _) => s.shared.waiting != [] && oldest == s.shared.waiting[0]
    case _ => true
  }

  predicate Parsed(r: Receiver) {
    r.Completing? || r.Shutting? || r.Setting?
  }

  predicate Over(r: Receiver) {
    r.SettingFailures? || r.Joining? || r.Done?
  }

  predicate Counted(s: Connection) {
    if Parsed(s.receiver) then
      |s.responses| == |s.completions| + 1 && s.responses[|s.completions|] == s.receiver.response
    else if Over(s.receiver) then
      |s.responses| <= |s.completions| &&
      (s.receiver.SettingFailures? ==> (s.receiver.first <==> |s.responses| == |s.completions|))
    else |s.responses| == |s.completions|
  }

  /** What the `i`-th request accepted comes to. */
  function OutcomeOf(i: nat, responses: seq<Response>, failure: Failure): Outcome {
    if i < |responses| then Answered(responses[i])
    else Failed(if i == |responses| then failure else After(failure))
  }

  predicate Completed(s: Connection) {
    forall i :: 0 <= i < |s.completions| ==> s.completions[i].outcome == OutcomeOf(i, s.responses, s.shared.failure)
  }

  predicate AnswersItsRequest(s: Connection) {
    |s.responses| <= |s.requests| &&
    forall i :: 0 <= i < |s.responses| ==> s.responses[i].request == s.requests[i]
  }

  predicate ClosedInTime(s: Connection) {
    && (s.receiver.Collecting? || Over(s.receiver) ==> s.shared.closed)
    && (Over(s.receiver) ==> s.shared.waiting == [])
    && (s.receiver.Done? ==> s.sender.Stopped?)
  }

  predicate Safe(s: Connection) {
    Ticketed(s) && HoldsOldest(s) && Counted(s) && Completed(s) && AnswersItsRequest(s) && ClosedInTime(s)
  }

  /** A response is to the request it was asked for. */
  ghost predicate Answers(parse: Parser) {
    && (forall b, request :: parse.next(b, request).Responds? ==> parse.next(b, request).response.request == request)
    && (forall b, request :: parse.finish(b, request).Ends? && parse.finish(b, request).step.Responds? ==>
          parse.finish(b, request).step.response.request == request)
  }

  lemma RulesAnswer(rules: Rules)
    ensures Answers(Under(rules))
  {
    forall b, request
      ensures Next(b, request, rules).Responds? ==> Next(b, request, rules).response.request == request
      ensures var end := Finished(b, request, rules);
              end.Ends? && end.step.Responds? ==> end.step.response.request == request
    {
    }
  }

  lemma ParsingKeepsSafe(s: Connection, oldest: Asked, parse: Parser)
    requires Safe(s) && Answers(parse) && s.receiver == Parsing(oldest)
    ensures Safe(Parses(s, oldest, parse))
  {
    assert Pending(Parses(s, oldest, parse)) == Pending(s);
    assert Pending(s)[0] == oldest;
  }

  lemma FinishingKeepsSafe(s: Connection, oldest: Asked, parse: Parser)
    requires Safe(s) && Answers(parse) && s.receiver == Finishing(oldest)
    ensures Safe(Finishes(s, oldest, parse))
  {
    assert Pending(Finishes(s, oldest, parse)) == Pending(s);
    assert Pending(s)[0] == oldest;
  }

  lemma PoppingKeepsSafe(s: Connection, oldest: Asked, response: Response, ending: bool)
    requires Safe(s) && s.receiver == Completing(oldest, response, ending)
    ensures Safe(Pops(s, oldest, response, ending))
  {
    assert Pending(Pops(s, oldest, response, ending)) == Pending(s);
  }

  lemma ShuttingKeepsSafe(s: Connection, oldest: Asked, response: Response, ending: bool)
    requires Safe(s) && s.receiver == Shutting(oldest, response, ending)
    ensures Safe(Shuts(s, oldest, response, ending))
  {
    SettledKeepsSafe(s, Shuts(s, oldest, response, ending));
  }

  lemma SettingKeepsSafe(s: Connection, oldest: Asked, response: Response, ending: bool)
    requires Safe(s) && s.receiver == Setting(oldest, response, ending)
    ensures Safe(Sets(s, oldest, response, ending))
  {
    OneDone(s.completions, Pending(s), s.requests, Answered(response));
    assert Pending(s)[0] == oldest;
    assert Pending(Sets(s, oldest, response, ending)) == Pending(s)[1..];
  }

  lemma FailureKeepsSafe(s: Connection, left: seq<Asked>, first: bool)
    requires Safe(s) && s.receiver == SettingFailures(left, first)
    ensures Safe(SetsFailure(s, left, first))
  {
    if left != [] {
      OneDone(s.completions, Pending(s), s.requests,
              Failed(if first then s.shared.failure else After(s.shared.failure)));
      assert Pending(s)[0] == left[0];
      assert Pending(SetsFailure(s, left, first)) == Pending(s)[1..];
    }
  }

  lemma ReceivingKeepsSafe(s: Connection, event: Event, parse: Parser)
    requires Safe(s) && Answers(parse) && Enabled(s, ReceiverMoves(event))
    ensures Safe(Receives(s, event, parse))
  {
    match s.receiver {
      case Parsing(oldest) => ParsingKeepsSafe(s, oldest, parse);
      case Finishing(oldest) => FinishingKeepsSafe(s, oldest, parse);
      case Completing(oldest, response, ending) => PoppingKeepsSafe(s, oldest, response, ending);
      case Shutting(oldest, response, ending) => ShuttingKeepsSafe(s, oldest, response, ending);
      case Setting(oldest, response, ending) => SettingKeepsSafe(s, oldest, response, ending);
      case SettingFailures(left, first) => FailureKeepsSafe(s, left, first);
      case Collecting => CollectingKeepsSafe(s, event, parse);
      case Raised(_) => ClosingDownKeepsSafe(s, event, parse);
      case Leaving => ClosingDownKeepsSafe(s, event, parse);
      case _ => WalkingKeepsSafe(s, event, parse);
    }
  }

  lemma CollectingKeepsSafe(s: Connection, event: Event, parse: Parser)
    requires Safe(s) && s.receiver.Collecting?
    ensures Safe(Receives(s, event, parse))
  {
    assert Pending(Receives(s, event, parse)) == Pending(s);
  }

  lemma ClosingDownKeepsSafe(s: Connection, event: Event, parse: Parser)
    requires Safe(s) && (s.receiver.Raised? || s.receiver.Leaving?)
    ensures Safe(Receives(s, event, parse))
  {
    SettledKeepsSafe(s, Receives(s, event, parse));
  }

  /** The steps that only decide where to go next. */
  lemma WalkingKeepsSafe(s: Connection, event: Event, parse: Parser)
    requires Safe(s) && Enabled(s, ReceiverMoves(event))
    requires !s.receiver.Parsing? && !s.receiver.Finishing? && !Parsed(s.receiver)
    requires !s.receiver.SettingFailures? && !s.receiver.Collecting?
    requires !s.receiver.Raised? && !s.receiver.Leaving?
    ensures Safe(Receives(s, event, parse))
  {
    assert Pending(Receives(s, event, parse)) == Pending(s);
    SettledKeepsSafe(s, Receives(s, event, parse));
  }

  /** Nothing pending or completed is touched, and any failure noted is the first. */
  lemma SettledKeepsSafe(s: Connection, after: Connection)
    requires Safe(s)
    requires after.completions == s.completions && after.requests == s.requests && after.responses == s.responses
    requires Pending(after) == Pending(s) && after.shared.accepted == s.shared.accepted
    requires after.shared.failure == s.shared.failure || |s.completions| <= |s.responses|
    requires HoldsOldest(after) && Counted(after) && ClosedInTime(after)
    ensures Safe(after)
  {
  }

  lemma OthersKeepSafe(s: Connection, action: Action, parse: Parser)
    requires Safe(s) && Enabled(s, action) && !action.ReceiverMoves?
    ensures Safe(Take(s, action, parse))
  {
    match action {
      case Request(request) => RequestKeepsSafe(s, request, parse);
      case SenderMoves(sends) => SendingKeepsSafe(s, sends);
      case Close => ClosingKeepsSafe(s, parse);
      case PutStop => SettledKeepsSafe(s, Take(s, action, parse));
    }
  }

  lemma SendingKeepsSafe(s: Connection, sends: bool)
    requires Safe(s) && Enabled(s, SenderMoves(sends))
    ensures Safe(Sends(s, sends))
  {
    SettledKeepsSafe(s, Sends(s, sends));
  }

  lemma ClosingKeepsSafe(s: Connection, parse: Parser)
    requires Safe(s)
    ensures Safe(Take(s, Close, parse))
  {
    SettledKeepsSafe(s, Take(s, Close, parse));
  }

  lemma RequestKeepsSafe(s: Connection, request: RequestLine, parse: Parser)
    requires Safe(s)
    ensures Safe(Take(s, Request(request), parse))
  {
    if !s.shared.closed {
      var after := Take(s, Request(request), parse);
      assert Pending(after) == Pending(s) + [Asked(s.shared.accepted, request)];
    }
  }

  // ---- Requests are sent in the order they wait ---------------------------

  predicate HasStop(outgoing: seq<Message>) {
    outgoing != [] && outgoing[|outgoing| - 1].Stop?
  }

  /** How many requests are queued, before the mark to stop at. */
  function Queued(outgoing: seq<Message>): nat {
    if HasStop(outgoing) then |outgoing| - 1 else |outgoing|
  }

  predicate SenderKnows(s: Connection, unsent: int) {
    match s.sender
    case Getting => unsent == |s.sent|
    case Got(Data(ticket)) => ticket == |s.sent| && unsent == |s.sent| + 1
    case Sending(ticket) => ticket == |s.sent| && unsent == |s.sent| + 1
    case Got(Stop) => |s.sent| <= s.shared.accepted
    case Stopped => |s.sent| <= s.shared.accepted
  }

  /** What is queued are the last requests accepted, and what is sent the first. */
  predicate SentInOrder(s: Connection) {
    var outgoing, queued := s.shared.outgoing, Queued(s.shared.outgoing);
    && queued <= s.shared.accepted
    && (forall i :: 0 <= i < queued ==> outgoing[i] == Data(s.shared.accepted - queued + i))
    && (forall i :: 0 <= i < |s.sent| ==> s.sent[i] == i)
    && (HasStop(outgoing) || s.stopDue ==> s.shared.closed) && !(HasStop(outgoing) && s.stopDue)
    && (s.sender == Got(Stop) ==> s.shared.closed && outgoing == [] && !s.stopDue)
    && (s.shared.closed ==> s.stopDue || HasStop(outgoing) || s.sender == Got(Stop) || s.sender.Stopped?)
    && SenderKnows(s, s.shared.accepted - queued)
  }

  lemma SendingKeepsOrder(s: Connection, sends: bool)
    requires SentInOrder(s) && Enabled(s, SenderMoves(sends))
    ensures SentInOrder(Sends(s, sends))
  {
    var outgoing := s.shared.outgoing;
    if s.sender.Getting? && |outgoing| > 1 {
      assert HasStop(outgoing[1..]) == HasStop(outgoing);
    }
  }

  lemma OthersKeepOrder(s: Connection, action: Action, parse: Parser)
    requires SentInOrder(s) && Enabled(s, action) && !action.ReceiverMoves? && !action.SenderMoves?
    ensures SentInOrder(Take(s, action, parse))
  {
    if action.Request? && !s.shared.closed {
      assert Queued(Take(s, action, parse).shared.outgoing) == Queued(s.shared.outgoing) + 1;
    }
  }

  lemma ReceivingKeepsOrder(s: Connection, event: Event, parse: Parser)
    requires SentInOrder(s) && Enabled(s, ReceiverMoves(event))
    ensures SentInOrder(Receives(s, event, parse))
  {
    var after := Receives(s, event, parse);
    assert after.sender == s.sender && after.sent == s.sent;
    assert after.shared.outgoing == s.shared.outgoing && after.shared.accepted == s.shared.accepted;
    assert s.shared.closed ==> after.shared.closed && after.stopDue == s.stopDue;
  }

  // ---- No response is taken after one that closes the connection ----------

  predicate Reading(r: Receiver) {
    r.Awaiting? || r.Asking? || r.Parsing? || r.Ending? || r.Finishing?
  }

  predicate ClosesLast(s: Connection) {
    && (forall i :: 0 <= i < |s.responses| - 1 ==> !s.responses[i].closesConnection)
    && (s.responses != [] && s.responses[|s.responses| - 1].closesConnection ==>
          !Reading(s.receiver) && (s.shared.closed || s.receiver.Completing? || s.receiver.Shutting?))
    && (s.receiver.Completing? || s.receiver.Shutting? ==>
          s.responses != [] && s.responses[|s.responses| - 1] == s.receiver.response)
    && (s.shared.turnedAway ==>
          s.shared.closed && s.shared.failure == ClosedByPeer &&
          s.responses != [] && s.responses[|s.responses| - 1].closesConnection)
  }

  lemma ParsingKeepsLast(s: Connection, event: Event, parse: Parser)
    requires ClosesLast(s) && Enabled(s, ReceiverMoves(event))
    requires s.receiver.Parsing? || s.receiver.Finishing?
    ensures ClosesLast(Receives(s, event, parse))
  {
    var after := Receives(s, event, parse);
    assert after.shared == s.shared;
    if after.receiver.Completing? {
      assert after.responses == s.responses + [after.receiver.response];
    }
  }

  lemma ReceivingKeepsLast(s: Connection, event: Event, parse: Parser)
    requires ClosesLast(s) && HoldsOldest(s) && Enabled(s, ReceiverMoves(event))
    ensures ClosesLast(Receives(s, event, parse))
  {
    if s.receiver.Parsing? || s.receiver.Finishing? {
      ParsingKeepsLast(s, event, parse);
    } else {
      var after := Receives(s, event, parse);
      assert after.responses == s.responses && !after.receiver.Completing?;
      assert s.shared.closed ==> after.shared.closed && after.shared.failure == s.shared.failure &&
                                 after.shared.turnedAway == s.shared.turnedAway;
    }
  }

  lemma OthersKeepLast(s: Connection, action: Action, parse: Parser)
    requires ClosesLast(s) && Enabled(s, action) && !action.ReceiverMoves?
    ensures ClosesLast(Take(s, action, parse))
  {
  }

  // ---- What holds in every reachable state --------------------------------

  predicate Sound(s: Connection) {
    Safe(s) && SentInOrder(s) && ClosesLast(s)
  }

  lemma ActionKeepsSound(s: Connection, action: Action, parse: Parser)
    requires Sound(s) && Answers(parse) && Enabled(s, action)
    ensures Sound(Take(s, action, parse))
  {
    if action.ReceiverMoves? {
      ReceivingKeepsSafe(s, action.event, parse);
      ReceivingKeepsOrder(s, action.event, parse);
      ReceivingKeepsLast(s, action.event, parse);
    } else {
      OthersKeepSafe(s, action, parse);
      OthersKeepLast(s, action, parse);
      if action.SenderMoves? {
        SendingKeepsOrder(s, action.sends);
      } else {
        OthersKeepOrder(s, action, parse);
      }
    }
  }

  lemma {:induction false} RunKeepsSound(s: Connection, actions: seq<Action>, parse: Parser)
    requires Sound(s) && Answers(parse) && CanRun(s, actions, parse)
    ensures Sound(Run(s, actions, parse))
    decreases |actions|
  {
    if actions != [] {
      ActionKeepsSound(s, actions[0], parse);
      RunKeepsSound(Take(s, actions[0], parse), actions[1..], parse);
    }
  }

  /**
   However the threads and callers interleave, the `k`-th future completed is that of the
   `k`-th request accepted, with the `k`-th response, which is to that request; and the
   `k`-th request sent is the `k`-th accepted.
   */
  lemma EveryRunPipelines(actions: seq<Action>, parse: Parser)
    requires Answers(parse) && CanRun(CONNECTED, actions, parse)
    ensures var s := Run(CONNECTED, actions, parse);
            && |s.completions| <= |s.requests| && |s.sent| <= |s.requests|
            && (forall k :: 0 <= k < |s.sent| ==> s.sent[k] == k)
            && (forall k :: 0 <= k < |s.completions| ==> s.completions[k].ticket == k)
            && (forall k :: 0 <= k < |s.completions| && s.completions[k].outcome.Answered? ==>
                  k < |s.responses| && s.completions[k].outcome.response == s.responses[k] &&
                  s.responses[k].request == s.requests[k])
            && (s.receiver.Done? ==>
                  |s.completions| == |s.requests| && |s.responses| <= |s.requests| &&
                  forall k :: 0 <= k < |s.requests| ==>
                    s.completions[k] == Completion(k, OutcomeOf(k, s.responses, s.shared.failure)))
  {
    RunKeepsSound(CONNECTED, actions, parse);
    var s := Run(CONNECTED, actions, parse);
    assert s.receiver.Done? ==> Pending(s) == [];
  }

  lemma StaysClosed(s: Connection, action: Action, parse: Parser)
    requires s.shared.closed && Enabled(s, action)
    ensures var after := Take(s, action, parse);
            && after.shared.closed && after.requests == s.requests
            && after.shared.failure == s.shared.failure && after.shared.turnedAway == s.shared.turnedAway
  {
  }

  /** Once closed, it stays closed for the same reason, and no request is accepted. */
  lemma {:induction false} ClosedForGood(s: Connection, actions: seq<Action>, parse: Parser)
    requires s.shared.closed && CanRun(s, actions, parse)
    ensures var after := Run(s, actions, parse);
            && after.shared.closed && after.requests == s.requests
            && after.shared.failure == s.shared.failure && after.shared.turnedAway == s.shared.turnedAway
    decreases |actions|
  {
    if actions != [] {
      StaysClosed(s, actions[0], parse);
      ClosedForGood(Take(s, actions[0], parse), actions[1..], parse);
    }
  }

  /** A response that closes the connection is the last one given, and one turned away was given one. */
  lemma ClosingResponseIsLast(actions: seq<Action>, parse: Parser)
    requires Answers(parse) && CanRun(CONNECTED, actions, parse)
    ensures var s := Run(CONNECTED, actions, parse);
            && (forall k :: 0 <= k < |s.responses| - 1 ==> !s.responses[k].closesConnection)
            && (s.shared.turnedAway ==>
                  s.responses != [] && s.responses[|s.responses| - 1].closesConnection &&
                  s.shared.failure == ClosedByPeer)
  {
    RunKeepsSound(CONNECTED, actions, parse);
  }

  // ---- Closing comes to an end --------------------------------------------

  function ReceiverRank(r: Receiver): nat {
    match r
    case Done => 0
    case Joining => 1
    case SettingFailures(left, _) => 2 + |left|
    case Collecting => 3
    case Leaving => 4
    case Raised(_) => 5
    case Looping => 5
    case Surplus => 6
    case Delivering => 7
    case Setting(_, _, _) => 8
    case Shutting(_, _, _) => 9
    case Completing(_, _, _) => 10
    case Parsing(_) => 11
    case Finishing(_) => 11
    case Asking => 12
    case Ending => 12
    case Awaiting => 13
  }

  function SenderRank(sender: Sender): nat {
    match sender
    case Stopped => 0
    case Getting => 1
    case Sending(_) => 2
    case Got(_) => 3
  }

  /** How many steps the threads of a closed connection may yet take, at most. */
  function Rank(s: Connection): nat {
    ReceiverRank(s.receiver) + |s.shared.waiting| + SenderRank(s.sender) + 3 * |s.shared.outgoing| +
    (if s.stopDue then 4 else 0)
  }

  predicate OfThreads(action: Action) {
    action.PutStop? || action.SenderMoves? || action.ReceiverMoves?
  }

  lemma ReceivingSparesSender(s: Connection, event: Event, parse: Parser)
    requires s.shared.closed && Enabled(s, ReceiverMoves(event))
    ensures var after := Receives(s, event, parse);
            && after.shared.closed
            && after.shared.outgoing == s.shared.outgoing && after.sender == s.sender && after.stopDue == s.stopDue
  {
  }

  function Ahead(s: Connection): nat {
    ReceiverRank(s.receiver) + |s.shared.waiting|
  }

  lemma ParsingWindsDown(s: Connection, oldest: Asked, parse: Parser)
    ensures s.receiver == Parsing(oldest) ==> Ahead(Parses(s, oldest, parse)) < Ahead(s)
    ensures s.receiver == Finishing(oldest) ==> Ahead(Finishes(s, oldest, parse)) < Ahead(s)
  {
  }

  lemma ReceivingWindsDown(s: Connection, event: Event, parse: Parser)
    requires s.shared.closed && Enabled(s, ReceiverMoves(event))
    ensures Ahead(Receives(s, event, parse)) < Ahead(s)
  {
    match s.receiver {
      case Parsing(oldest) => ParsingWindsDown(s, oldest, parse);
      case Finishing(oldest) => ParsingWindsDown(s, oldest, parse);
      case _ =>
    }
  }

  /** Every step the threads of a closed connection take brings them nearer to done. */
  lemma ActionWindsDown(s: Connection, action: Action, parse: Parser)
    requires s.shared.closed && Enabled(s, action)
    ensures Take(s, action, parse).shared.closed
    ensures if OfThreads(action) then Rank(Take(s, action, parse)) < Rank(s) else Take(s, action, parse) == s
  {
    if action.ReceiverMoves? {
      ReceivingSparesSender(s, action.event, parse);
      ReceivingWindsDown(s, action.event, parse);
    }
  }

  /** Until it is done, some thread of a closed connection can take a step. */
  function ThreadAction(s: Connection): Action {
    if !s.receiver.Joining? then ReceiverMoves(Eof)
    else if s.sender.Stopped? then ReceiverMoves(Eof)
    else if s.sender.Getting? && s.shared.outgoing == [] then PutStop
    else SenderMoves(true)
  }

  lemma NeverStuck(s: Connection)
    requires Sound(s) && s.shared.closed && !s.receiver.Done?
    ensures Enabled(s, ThreadAction(s)) && OfThreads(ThreadAction(s))
  {
  }

  /** However a closed connection's threads are scheduled, they are done within its rank of steps. */
  lemma {:induction false} ClosingIsShort(s: Connection, actions: seq<Action>, parse: Parser)
    requires Sound(s) && Answers(parse) && s.shared.closed && CanRun(s, actions, parse)
    requires forall i :: 0 <= i < |actions| ==> OfThreads(actions[i])
    ensures |actions| + Rank(Run(s, actions, parse)) <= Rank(s)
    ensures Run(s, actions, parse).receiver.Done? ||
            Enabled(Run(s, actions, parse), ThreadAction(Run(s, actions, parse)))
    decreases |actions|
  {
    if actions == [] {
      if !s.receiver.Done? {
        NeverStuck(s);
      }
    } else {
      ActionWindsDown(s, actions[0], parse);
      ActionKeepsSound(s, actions[0], parse);
      ClosingIsShort(Take(s, actions[0], parse), actions[1..], parse);
    }
  }
}
