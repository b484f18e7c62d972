/** Searches as their workers, the messages that start them and the idle ticks carry them on. */
module Searching {
  import opened Wrappers
  import opened PartPaths
  import opened Counting
  import opened Searches
  import opened TimeLists

  /** A search by its place in the order they began, and told to stop. */
  datatype Message = Carry(id: nat) | Stop

  /** Where a search worker stands. */
  datatype Worker =
    | Getting
    | Picking(id: nat)
    | Looking(id: nat, ranked: seq<ContentId>, now: Time)
    | Asking(id: nat, node: ContentId)
    | Finding(id: nat, node: ContentId)
    | Telling(id: nat, node: ContentId)
    | Failing(id: nat)
    | FailingAt(id: nat, now: Time)
    | TellingFailed(id: nat)
    | Stopped

  /** Where the module's own thread stands, handling one message at a time. */
  datatype Handler =
    | Idle
    | Fetching(content: ContentId, now: Time)
    | Resuming(now: Time)
    | Putting(ids: seq<nat>)
    | Stopping(left: nat)

  datatype Event =
    | Started(id: nat, content: ContentId, at: Time)
    | AskedOf(id: nat, node: ContentId, pass: nat, at: Time)
    | Refused(id: nat, node: ContentId, until: Time)
    | Arrived(content: ContentId)
    | HeldOff(content: ContentId, until: Time)
    | Succeeded(id: nat)
    | FoundNothing(id: nat)

  datatype Settings = Settings(pause: Time, passes: nat, hold: Time)

  /** `seen` is the time the module's thread last went by, and `log` all that has happened. */
  datatype Manager = Manager(
    clock: Time,
    running: bool,
    runs: seq<Search>,
    table: Table<nat>,
    ready: seq<Message>,
    handler: Handler,
    workers: seq<Worker>,
    seen: Time,
    log: seq<Event>)

  function Opening(clock: Time, workers: nat): Manager {
    Manager(clock, true, [], Table(map[], [], 0, []), [], Idle, seq(workers, _ => Getting), clock, [])
  }

  /** What asking a peer comes to, or the peers connected, best match first. */
  datatype Outcome =
    | Plain
    | Ranks(ranked: seq<ContentId>)
    | Unreachable
    | NotFound(retryAfter: Option<Time>)
    | Sent
    | Crash

  datatype Action =
    | Tick(to: Time)
    | Fetch(content: ContentId)
    | Store(content: ContentId)
    | IdleTick
    | StopAll
    | HandlerMoves
    | WorkerMoves(worker: nat, outcome: Outcome)

  predicate Enabled(s: Manager, action: Action) {
    match action
    case Tick(to) => s.clock <= to
    case HandlerMoves => !s.handler.Idle?
    case WorkerMoves(w, outcome) =>
      && w < |s.workers|
      && (match s.workers[w]
          case Getting => s.ready != []
          case Picking(_) => outcome.Ranks? || outcome.Crash?
          case Asking(_, _) =>
            outcome.Unreachable? || outcome.Sent? || outcome.Crash? ||
            (outcome.NotFound? && (outcome.retryAfter.Some? ==> outcome.retryAfter.value >= 0.0))
          case Stopped => false
          case _ => true)
    case _ => s.handler.Idle?
  }

  predicate Live(s: Manager, id: nat) {
    id < |s.runs| && UnderWay(s.table, s.runs[id].content, id)
  }

  function With(s: Manager, w: nat, worker: Worker): Manager
    requires w < |s.workers|
  {
    s.(workers := s.workers[w := worker])
  }

  // ---- A worker's steps ---------------------------------------------------

  function Gets(s: Manager, w: nat): Manager
    requires w < |s.workers| && s.ready != []
  {
    With(s, w, match s.ready[0] case Carry(id) => Picking(id) case Stop => Stopped).(ready := s.ready[1..])
  }

  /** The next peer asked or the next pass started, if the search goes on; under the lock. */
  function Looks(s: Manager, w: nat, id: nat, ranked: seq<ContentId>, now: Time, settings: Settings): Manager
    requires w < |s.workers|
  {
    if !s.running || !Live(s, id) then With(s, w, Getting)
    else
      var run := s.runs[id];
      var chosen := Choosing(run, ranked, now);
      match chosen.node
      case Some(node) =>
        With(s, w, Asking(id, node)).(runs := s.runs[id := chosen.search],
                                      log := s.log + [AskedOf(id, node, run.passNumber, now)])
      case None =>
        if run.passNumber >= settings.passes then
          With(s, w, Failing(id)).(runs := s.runs[id := chosen.search])
        else
          var until := Searches.Resuming(chosen.search, ranked, now, settings.pause);
          var next := s.(runs := s.runs[id := NextPass(chosen.search)]);
          if until > now then
            With(next, w, Getting).(table := s.table.(waiting := Inserted(s.table.waiting, Wait(until, s.table.order, id)),
                                                      order := s.table.order + 1))
          else With(next, w, Picking(id))
  }

  function Asks(s: Manager, w: nat, id: nat, node: ContentId, outcome: Outcome, settings: Settings): Manager
    requires w < |s.workers|
  {
    match outcome
    case Sent => With(s, w, Finding(id, node))
    case NotFound(retryAfter) =>
      if id >= |s.runs| then With(s, w, Picking(id))
      else
        var until := s.clock + (match retryAfter case None => settings.pause case Some(seconds) => seconds);
        With(s, w, Picking(id)).(runs := s.runs[id := Refusing(s.runs[id], node, until)],
                                 log := s.log + [Refused(id, node, until)])
    case _ => With(s, w, Picking(id))
  }

  /** `id` no longer under way. */
  function Ending(s: Manager, id: nat): Manager {
    if Live(s, id) then s.(table := Ended(s.table, s.runs[id].content)) else s
  }

  function Fails(s: Manager, w: nat, id: nat, now: Time, settings: Settings): Manager
    requires w < |s.workers|
  {
    if !Live(s, id) then With(s, w, Getting)
    else
      var ended := With(Ending(s, id), w, TellingFailed(id));
      if s.runs[id].asks == 0 then ended
      else
        var content, until := s.runs[id].content, now + settings.hold;
        ended.(table := ended.table.(held := Put(ended.table.held, content, until)),
               log := ended.log + [HeldOff(content, until)])
  }

  function Works(s: Manager, w: nat, outcome: Outcome, settings: Settings): Manager
    requires Enabled(s, WorkerMoves(w, outcome))
  {
    match s.workers[w]
    case Getting => Gets(s, w)
    case Picking(id) => With(s, w, if outcome.Ranks? then Looking(id, outcome.ranked, s.clock) else Failing(id))
    case Looking(id, ranked, now) =>
      if outcome.Crash? then With(s, w, Failing(id)) else Looks(s, w, id, ranked, now, settings)
    case Asking(id, node) =>
      if outcome.Crash? then With(s, w, Failing(id)) else Asks(s, w, id, node, outcome, settings)
    case Finding(id, node) =>
      if outcome.Crash? then With(s, w, Failing(id)) else With(Ending(s, id), w, Telling(id, node))
    case Telling(id, node) =>
      if outcome.Crash? then With(s, w, Failing(id)) else With(s, w, Getting).(log := s.log + [Succeeded(id)])
    case Failing(id) => With(s, w, FailingAt(id, s.clock))
    case FailingAt(id, now) => Fails(s, w, id, now, settings)
    case TellingFailed(id) => With(s, w, Getting).(log := s.log + [FoundNothing(id)])
    case Stopped => s
  }

  // ---- The module's own thread --------------------------------------------

  /** A search started, unless one is under way or held; under the lock. */
  function Begins(s: Manager, content: ContentId, now: Time): Manager {
    var held := Dropped(s.table.held, now);
    var forgot := s.(table := s.table.(held := held), seen := now, handler := Idle);
    if content in s.table.underWay || UntilOf(held, content, now) > now then forgot
    else
      var id := |s.runs|;
      forgot.(runs := s.runs + [Begun(content)],
              table := forgot.table.(underWay := s.table.underWay[content := id], held := Without(held, content)),
              handler := Putting([id]),
              log := s.log + [Started(id, content, now)])
  }

  function Arrives(s: Manager, content: ContentId): Manager {
    s.(table := s.table.(underWay := s.table.underWay - {content}, held := Without(s.table.held, content)),
       log := s.log + [Arrived(content)])
  }

  function Handles(s: Manager): Manager {
    match s.handler
    case Idle => s
    case Fetching(content, now) => Begins(s, content, now)
    case Resuming(now) =>
      var n := Searches.Over(s.table.waiting, now);
      s.(table := s.table.(waiting := s.table.waiting[n..]), handler := Putting(RunsOf(s.table.waiting[..n])))
    case Putting(ids) =>
      if ids == [] then s.(handler := Idle) else s.(ready := s.ready + [Carry(ids[0])], handler := Putting(ids[1..]))
    case Stopping(left) =>
      if left == 0 then s.(handler := Idle) else s.(ready := s.ready + [Stop], handler := Stopping(left - 1))
  }

  function Take(s: Manager, action: Action, settings: Settings): Manager
    requires Enabled(s, action)
  {
    match action
    case Tick(to) => s.(clock := to)
    case Fetch(content) => s.(handler := Fetching(content, s.clock))
    case Store(content) => Arrives(s, content)
    case IdleTick => s.(handler := Handler.Resuming(s.clock))
    case StopAll => s.(running := false, handler := if s.running then Stopping(|s.workers|) else Idle)
    case HandlerMoves => Handles(s)
    case WorkerMoves(w, outcome) => Works(s, w, outcome, settings)
  }

  predicate CanRun(s: Manager, actions: seq<Action>, settings: Settings)
    decreases |actions|
  {
    actions == [] || (Enabled(s, actions[0]) && CanRun(Take(s, actions[0], settings), actions[1..], settings))
  }

  function Run(s: Manager, actions: seq<Action>, settings: Settings): Manager
    requires CanRun(s, actions, settings)
    decreases |actions|
  {
    if actions == [] then s else Run(Take(s, actions[0], settings), actions[1..], settings)
  }
}
