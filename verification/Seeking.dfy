/** What every run of the searches keeps. */
module Seeking {
  import opened Wrappers
  import opened PartPaths
  import opened Counting
  import opened Searches
  import opened TimeLists
  import opened Searching

  // ---- Where a search is --------------------------------------------------

  function OfMessage(id: nat): Message -> bool {
    m => m == Carry(id)
  }

  function OfWait(id: nat): Wait<nat> -> bool {
    (w: Wait<nat>) => w.run == id
  }

  function OfId(id: nat): nat -> bool {
    i => i == id
  }

  /** The search a worker has in hand. */
  function InHand(worker: Worker): Option<nat> {
    match worker
    case Getting => None
    case Stopped => None
    case _ => Some(worker.id)
  }

  function OfWorker(id: nat): Worker -> bool {
    worker => InHand(worker) == Some(id)
  }

  function Handed(handler: Handler): seq<nat> {
    match handler case Putting(ids) => ids case _ => []
  }

  /** In how many places search `id` is: ready, waiting, or in a thread's hands. */
  function Places(s: Manager, id: nat): nat {
    Count(s.ready, OfMessage(id)) + Count(s.table.waiting, OfWait(id)) +
    Count(Handed(s.handler), OfId(id)) + Count(s.workers, OfWorker(id))
  }

  predicate IsOutcome(event: Event, id: nat) {
    event == Succeeded(id) || event == FoundNothing(id)
  }

  function OfOutcome(id: nat): Event -> bool {
    event => IsOutcome(event, id)
  }

  /** How many outcomes search `id` has published. */
  function Outcomes(s: Manager, id: nat): nat {
    Count(s.log, OfOutcome(id))
  }

  lemma {:induction false} CountInserted(waits: seq<Wait<nat>>, w: Wait<nat>, id: nat)
    ensures Count(Inserted(waits, w), OfWait(id)) == Count(waits, OfWait(id)) + if w.run == id then 1 else 0
  {
    if waits == [] || Sooner(w, waits[0]) {
      assert ([w] + waits)[1..] == waits;
    } else {
      CountInserted(waits[1..], w, id);
      assert ([waits[0]] + Inserted(waits[1..], w))[1..] == Inserted(waits[1..], w);
    }
  }

  lemma {:induction false} CountRuns(waits: seq<Wait<nat>>, id: nat)
    ensures Count(RunsOf(waits), OfId(id)) == Count(waits, OfWait(id))
  {
    if waits != [] {
      CountRuns(waits[1..], id);
      assert RunsOf(waits)[1..] == RunsOf(waits[1..]);
    }
  }

  predicate Concluding(worker: Worker) {
    worker.Telling? || worker.TellingFailed?
  }

  /** One search is in at most one place, until it has published its one outcome. */
  ghost predicate Placed(s: Manager) {
    && (forall id :: Places(s, id) + Outcomes(s, id) <= 1)
    && (forall id :: id >= |s.runs| ==> Places(s, id) + Outcomes(s, id) == 0)
  }

  /** What is under way is of its key, and of no outcome; and it is somewhere, while the module runs. */
  ghost predicate Known(s: Manager) {
    && (forall key :: key in s.table.underWay ==>
          s.table.underWay[key] < |s.runs| && s.runs[s.table.underWay[key]].content == key)
    && (forall id :: Live(s, id) ==> Outcomes(s, id) == 0 && (s.running ==> Places(s, id) == 1))
    && (forall w :: 0 <= w < |s.workers| && Concluding(s.workers[w]) ==> !Live(s, s.workers[w].id))
  }

  lemma WithPlaces(s: Manager, w: nat, worker: Worker, id: nat)
    requires w < |s.workers|
    ensures Places(With(s, w, worker), id) + (if InHand(s.workers[w]) == Some(id) then 1 else 0) ==
            Places(s, id) + if InHand(worker) == Some(id) then 1 else 0
  {
    CountUpdate(s.workers, w, worker, OfWorker(id));
  }

  lemma LogOutcomes(log: seq<Event>, event: Event, id: nat)
    ensures Count(log + [event], OfOutcome(id)) == Count(log, OfOutcome(id)) + if IsOutcome(event, id) then 1 else 0
  {
    CountMore(log, event, OfOutcome(id));
  }

  /** What a thread's step does to search `id`: it may drop it, and live on only where it was. */
  predicate Moved(s: Manager, after: Manager, id: nat) {
    && Places(after, id) + Outcomes(after, id) <= Places(s, id) + Outcomes(s, id)
    && (Live(after, id) ==> Live(s, id) && Outcomes(after, id) == Outcomes(s, id))
    && (Live(after, id) && after.running ==> s.running && Places(after, id) == Places(s, id))
  }

  /** A worker's step starts no search, and what it leaves under way was. */
  predicate Continues(s: Manager, after: Manager) {
    && |after.runs| == |s.runs| && after.running == s.running
    && (forall id :: 0 <= id < |s.runs| ==> after.runs[id].content == s.runs[id].content)
    && (forall key :: key in after.table.underWay ==>
          key in s.table.underWay && after.table.underWay[key] == s.table.underWay[key])
  }

  lemma GetsMoves(s: Manager, w: nat, id: nat)
    requires w < |s.workers| && s.ready != [] && s.workers[w].Getting?
    ensures Moved(s, Gets(s, w), id) && Continues(s, Gets(s, w))
  {
    WithPlaces(s, w, Gets(s, w).workers[w], id);
    assert s.ready == [s.ready[0]] + s.ready[1..];
  }

  lemma WithMoves(s: Manager, w: nat, worker: Worker, id: nat)
    requires w < |s.workers| && InHand(s.workers[w]) == InHand(worker)
    ensures Moved(s, With(s, w, worker), id) && Continues(s, With(s, w, worker))
  {
    WithPlaces(s, w, worker, id);
  }

  /** Nothing a search was asked or has been told changes where it is. */
  lemma SameMoves(s: Manager, after: Manager, id: nat)
    requires after.ready == s.ready && after.table.waiting == s.table.waiting
    requires after.handler == s.handler && after.workers == s.workers && after.running == s.running
    requires after.log == s.log || (|after.log| == |s.log| + 1 && after.log[..|s.log|] == s.log &&
                                    !after.log[|s.log|].Succeeded? && !after.log[|s.log|].FoundNothing?)
    requires Continues(s, after)
    ensures Places(after, id) == Places(s, id) && Outcomes(after, id) == Outcomes(s, id)
    ensures Moved(s, after, id)
  {
    if after.log != s.log {
      LogOutcomes(s.log, after.log[|s.log|], id);
      assert after.log == s.log + [after.log[|s.log|]];
    }
  }

  lemma LooksMoves(s: Manager, w: nat, run: nat, ranked: seq<ContentId>, now: Time, settings: Settings, id: nat)
    requires w < |s.workers| && s.workers[w] == Looking(run, ranked, now)
    ensures Moved(s, Looks(s, w, run, ranked, now, settings), id)
    ensures Continues(s, Looks(s, w, run, ranked, now, settings))
  {
    var after := Looks(s, w, run, ranked, now, settings);
    if after.workers[w].Getting? {
      DropsOrWaits(s, w, run, ranked, now, settings, id);
    } else {
      var moved := With(s, w, after.workers[w]);
      WithMoves(s, w, after.workers[w], id);
      SameMoves(moved, after, id);
    }
  }

  lemma DropsOrWaits(s: Manager, w: nat, run: nat, ranked: seq<ContentId>, now: Time, settings: Settings, id: nat)
    requires w < |s.workers| && s.workers[w] == Looking(run, ranked, now)
    requires Looks(s, w, run, ranked, now, settings).workers[w].Getting?
    ensures Moved(s, Looks(s, w, run, ranked, now, settings), id)
    ensures Continues(s, Looks(s, w, run, ranked, now, settings))
  {
    if s.running && Live(s, run) {
      var search := Choosing(s.runs[run], ranked, now).search;
      WaitMoves(s, w, run, NextPass(search), Searches.Resuming(search, ranked, now, settings.pause), id);
    } else {
      WithPlaces(s, w, Getting, id);
    }
  }

  /** Waiting for its next pass, a search moves from its worker's hands among those that wait. */
  lemma WaitMoves(s: Manager, w: nat, run: nat, search: Search, until: Time, id: nat)
    requires w < |s.workers| && InHand(s.workers[w]) == Some(run) && run < |s.runs|
    requires search.content == s.runs[run].content
    ensures var next := s.(runs := s.runs[run := search]);
            var after := With(next, w, Getting).(table := s.table.(waiting := Inserted(s.table.waiting, Wait(until, s.table.order, run)),
                                                                   order := s.table.order + 1));
            Moved(s, after, id) && Continues(s, after)
  {
    WithPlaces(s, w, Getting, id);
    CountInserted(s.table.waiting, Wait(until, s.table.order, run), id);
  }

  lemma AsksMoves(s: Manager, w: nat, run: nat, node: ContentId, outcome: Outcome, settings: Settings, id: nat)
    requires w < |s.workers| && s.workers[w] == Asking(run, node)
    ensures Moved(s, Asks(s, w, run, node, outcome, settings), id)
    ensures Continues(s, Asks(s, w, run, node, outcome, settings))
  {
    var after := Asks(s, w, run, node, outcome, settings);
    var moved := With(s, w, after.workers[w]);
    WithMoves(s, w, after.workers[w], id);
    SameMoves(moved, after, id);
  }

  lemma EndingMoves(s: Manager, w: nat, worker: Worker, id: nat)
    requires w < |s.workers| && InHand(s.workers[w]) == InHand(worker) && InHand(worker).Some?
    ensures var after := With(Ending(s, InHand(worker).value), w, worker);
            Moved(s, after, id) && Continues(s, after) && !Live(after, InHand(worker).value)
  {
    WithMoves(s, w, worker, id);
    SameMoves(With(s, w, worker), With(Ending(s, InHand(worker).value), w, worker), id);
  }

  lemma FailsMoves(s: Manager, after: Manager, w: nat, run: nat, now: Time, settings: Settings, id: nat)
    requires w < |s.workers| && s.workers[w] == FailingAt(run, now)
    requires after == Fails(s, w, run, now, settings)
    ensures Moved(s, after, id) && Continues(s, after)
    ensures |after.workers| == |s.workers| && after.workers == s.workers[w := after.workers[w]]
    ensures Concluding(after.workers[w]) ==> !Live(after, after.workers[w].id)
  {
    if Live(s, run) {
      EndingMoves(s, w, TellingFailed(run), id);
      var ended := With(Ending(s, run), w, TellingFailed(run));
      SameMoves(ended, after, id);
    } else {
      WithPlaces(s, w, Getting, id);
    }
  }

  /** An outcome published leaves its search nowhere. */
  lemma TellsMoves(s: Manager, w: nat, outcome: Event, id: nat)
    requires w < |s.workers| && Concluding(s.workers[w]) && IsOutcome(outcome, s.workers[w].id)
    requires !Live(s, s.workers[w].id)
    ensures var after := With(s, w, Getting).(log := s.log + [outcome]); Moved(s, after, id) && Continues(s, after)
  {
    WithPlaces(s, w, Getting, id);
    LogOutcomes(s.log, outcome, id);
  }

  /** A step of worker `w`, as far as search `id` goes. */
  predicate Worked(s: Manager, after: Manager, w: nat, id: nat)
    requires w < |s.workers|
  {
    && Moved(s, after, id) && Continues(s, after)
    && |after.workers| == |s.workers| && after.workers == s.workers[w := after.workers[w]]
    && (Concluding(after.workers[w]) ==> !Live(after, after.workers[w].id))
  }

  lemma CrashMoves(s: Manager, w: nat, id: nat)
    requires w < |s.workers| && InHand(s.workers[w]).Some?
    ensures Worked(s, With(s, w, Failing(InHand(s.workers[w]).value)), w, id)
  {
    WithMoves(s, w, Failing(InHand(s.workers[w]).value), id);
  }

  /** Looking moves on its own worker alone. */
  lemma LooksAlone(s: Manager, w: nat, run: nat, ranked: seq<ContentId>, now: Time, settings: Settings)
    requires w < |s.workers|
    ensures var after := Looks(s, w, run, ranked, now, settings);
            && |after.workers| == |s.workers| && after.workers == s.workers[w := after.workers[w]]
            && !Concluding(after.workers[w])
  {
  }

  lemma LookingMoves(s: Manager, w: nat, outcome: Outcome, settings: Settings, id: nat)
    requires Enabled(s, WorkerMoves(w, outcome)) && s.workers[w].Looking?
    ensures Worked(s, Works(s, w, outcome, settings), w, id)
  {
    if outcome.Crash? {
      CrashMoves(s, w, id);
    } else {
      LooksAlone(s, w, s.workers[w].id, s.workers[w].ranked, s.workers[w].now, settings);
      LooksMoves(s, w, s.workers[w].id, s.workers[w].ranked, s.workers[w].now, settings, id);
    }
  }

  lemma AskingMoves(s: Manager, w: nat, outcome: Outcome, settings: Settings, id: nat)
    requires Enabled(s, WorkerMoves(w, outcome)) && s.workers[w].Asking?
    ensures Worked(s, Works(s, w, outcome, settings), w, id)
  {
    if outcome.Crash? {
      CrashMoves(s, w, id);
    } else {
      AsksMoves(s, w, s.workers[w].id, s.workers[w].node, outcome, settings, id);
    }
  }

  lemma FindingMoves(s: Manager, w: nat, outcome: Outcome, settings: Settings, id: nat)
    requires Enabled(s, WorkerMoves(w, outcome)) && s.workers[w].Finding?
    ensures Worked(s, Works(s, w, outcome, settings), w, id)
  {
    if outcome.Crash? {
      CrashMoves(s, w, id);
    } else {
      EndingMoves(s, w, Telling(s.workers[w].id, s.workers[w].node), id);
    }
  }

  lemma TellingMoves(s: Manager, w: nat, outcome: Outcome, settings: Settings, id: nat)
    requires Enabled(s, WorkerMoves(w, outcome)) && Concluding(s.workers[w]) && !Live(s, s.workers[w].id)
    ensures Worked(s, Works(s, w, outcome, settings), w, id)
  {
    var run := s.workers[w].id;
    if s.workers[w].Telling? && outcome.Crash? {
      CrashMoves(s, w, id);
    } else {
      TellsMoves(s, w, if s.workers[w].Telling? then Succeeded(run) else FoundNothing(run), id);
    }
  }

  lemma OtherMoves(s: Manager, w: nat, outcome: Outcome, settings: Settings, id: nat)
    requires Enabled(s, WorkerMoves(w, outcome))
    requires s.workers[w].Getting? || s.workers[w].Picking? || s.workers[w].Failing?
    ensures Worked(s, Works(s, w, outcome, settings), w, id)
  {
    var worker := s.workers[w];
    if worker.Getting? {
      GetsMoves(s, w, id);
    } else {
      WithMoves(s, w, Works(s, w, outcome, settings).workers[w], id);
    }
  }

  lemma FailingAtMoves(s: Manager, w: nat, outcome: Outcome, settings: Settings, id: nat)
    requires Enabled(s, WorkerMoves(w, outcome)) && s.workers[w].FailingAt?
    ensures Worked(s, Works(s, w, outcome, settings), w, id)
  {
    FailsMoves(s, Works(s, w, outcome, settings), w, s.workers[w].id, s.workers[w].now, settings, id);
  }

  lemma WorksMoves(s: Manager, after: Manager, w: nat, outcome: Outcome, settings: Settings, id: nat)
    requires Enabled(s, WorkerMoves(w, outcome)) && Known(s)
    requires after == Works(s, w, outcome, settings)
    ensures Worked(s, after, w, id)
  {
    var worker := s.workers[w];
    if worker.Looking? {
      LookingMoves(s, w, outcome, settings, id);
    } else if worker.Asking? {
      AskingMoves(s, w, outcome, settings, id);
    } else if worker.Finding? {
      FindingMoves(s, w, outcome, settings, id);
    } else if Concluding(worker) {
      TellingMoves(s, w, outcome, settings, id);
    } else if worker.FailingAt? {
      FailingAtMoves(s, w, outcome, settings, id);
    } else {
      OtherMoves(s, w, outcome, settings, id);
    }
  }

  lemma WorkedKeeps(s: Manager, after: Manager, w: nat)
    requires w < |s.workers| && Placed(s) && Known(s)
    requires forall id :: Worked(s, after, w, id)
    ensures Placed(after) && Known(after)
  {
    assert Worked(s, after, w, 0);
    forall id: nat
      ensures Places(after, id) + Outcomes(after, id) <= 1
      ensures id >= |after.runs| ==> Places(after, id) + Outcomes(after, id) == 0
      ensures Live(after, id) ==> Outcomes(after, id) == 0 && (after.running ==> Places(after, id) == 1)
    {
      assert Worked(s, after, w, id);
      assert Places(s, id) + Outcomes(s, id) <= 1;
    }
  }

  lemma WorksKeeps(s: Manager, after: Manager, w: nat, outcome: Outcome, settings: Settings)
    requires Enabled(s, WorkerMoves(w, outcome)) && Placed(s) && Known(s)
    requires after == Works(s, w, outcome, settings)
    ensures Placed(after) && Known(after)
  {
    forall id: nat
      ensures Worked(s, after, w, id)
    {
      WorksMoves(s, after, w, outcome, settings, id);
    }
    WorkedKeeps(s, after, w);
  }

  // ---- The module's own thread --------------------------------------------

  /** A step of the module's own thread, as far as search `id` goes, that starts none. */
  predicate Tended(s: Manager, after: Manager, id: nat) {
    && Moved(s, after, id) && after.workers == s.workers && |after.runs| == |s.runs|
    && (forall i :: 0 <= i < |s.runs| ==> after.runs[i] == s.runs[i])
    && (forall key :: key in after.table.underWay ==>
          key in s.table.underWay && after.table.underWay[key] == s.table.underWay[key])
  }

  lemma TendedKeeps(s: Manager, after: Manager)
    requires Placed(s) && Known(s)
    requires forall id :: Tended(s, after, id)
    ensures Placed(after) && Known(after)
  {
    assert Tended(s, after, 0);
    forall id: nat
      ensures Places(after, id) + Outcomes(after, id) <= 1
      ensures id >= |after.runs| ==> Places(after, id) + Outcomes(after, id) == 0
      ensures Live(after, id) ==> Outcomes(after, id) == 0 && (after.running ==> Places(after, id) == 1)
    {
      assert Tended(s, after, id);
      assert Places(s, id) + Outcomes(s, id) <= 1;
    }
  }

  lemma PutsMoves(s: Manager, id: nat)
    requires s.handler.Putting? || s.handler.Stopping?
    ensures Tended(s, Handles(s), id)
  {
    if s.handler.Putting? && s.handler.ids != [] {
      CountMore(s.ready, Carry(s.handler.ids[0]), OfMessage(id));
    } else {
      CountMore(s.ready, Stop, OfMessage(id));
    }
  }

  lemma ResumesMoves(s: Manager, id: nat)
    requires s.handler.Resuming?
    ensures Tended(s, Handles(s), id)
  {
    var waiting, n := s.table.waiting, Searches.Over(s.table.waiting, s.handler.now);
    assert waiting == waiting[..n] + waiting[n..];
    CountConcat(waiting[..n], waiting[n..], OfWait(id));
    CountRuns(waiting[..n], id);
  }

  lemma ArrivesMoves(s: Manager, content: ContentId, id: nat)
    ensures Tended(s, Arrives(s, content), id)
  {
    LogOutcomes(s.log, Arrived(content), id);
  }

  lemma BeginsKeeps(s: Manager, content: ContentId, now: Time)
    requires Placed(s) && Known(s) && s.handler == Fetching(content, now)
    ensures Placed(Begins(s, content, now)) && Known(Begins(s, content, now))
  {
    var after := Begins(s, content, now);
    if |after.runs| == |s.runs| {
      assert forall id :: Tended(s, after, id);
      TendedKeeps(s, after);
    } else {
      forall id: nat
        ensures Places(after, id) == Places(s, id) + if id == |s.runs| then 1 else 0
        ensures Outcomes(after, id) == Outcomes(s, id)
        ensures Places(s, id) + Outcomes(s, id) <= 1
        ensures Live(after, id) ==> Live(s, id) || id == |s.runs|
      {
        BeginsMoves(s, content, now, id);
      }
      forall w | 0 <= w < |s.workers| && Concluding(s.workers[w])
        ensures !Live(after, s.workers[w].id)
      {
        CountSome(s.workers, w, OfWorker(s.workers[w].id));
      }
    }
  }

  lemma BeginsMoves(s: Manager, content: ContentId, now: Time, id: nat)
    requires s.handler == Fetching(content, now) && |Begins(s, content, now).runs| > |s.runs|
    ensures var after := Begins(s, content, now);
            && Places(after, id) == Places(s, id) + (if id == |s.runs| then 1 else 0)
            && Outcomes(after, id) == Outcomes(s, id)
            && (Live(after, id) ==> Live(s, id) || id == |s.runs|)
  {
    LogOutcomes(s.log, Started(|s.runs|, content, now), id);
    assert Count([|s.runs|], OfId(id)) == (if id == |s.runs| then 1 else 0) + Count([|s.runs|][1..], OfId(id));
  }

  lemma HandlesKeeps(s: Manager)
    requires Placed(s) && Known(s)
    ensures Placed(Handles(s)) && Known(Handles(s))
  {
    match s.handler {
      case Idle =>
      case Fetching(content, now) => BeginsKeeps(s, content, now);
      case Resuming(now) =>
        forall id: nat ensures Tended(s, Handles(s), id) { ResumesMoves(s, id); }
        TendedKeeps(s, Handles(s));
      case Putting(_) =>
        forall id: nat ensures Tended(s, Handles(s), id) { PutsMoves(s, id); }
        TendedKeeps(s, Handles(s));
      case Stopping(_) =>
        forall id: nat ensures Tended(s, Handles(s), id) { PutsMoves(s, id); }
        TendedKeeps(s, Handles(s));
    }
  }

  lemma ActionKeeps(s: Manager, action: Action, settings: Settings)
    requires Placed(s) && Known(s) && Enabled(s, action)
    ensures Placed(Take(s, action, settings)) && Known(Take(s, action, settings))
  {
    match action {
      case WorkerMoves(w, outcome) => WorksKeeps(s, Works(s, w, outcome, settings), w, outcome, settings);
      case HandlerMoves => HandlesKeeps(s);
      case Store(content) =>
        forall id: nat ensures Tended(s, Arrives(s, content), id) { ArrivesMoves(s, content, id); }
        TendedKeeps(s, Arrives(s, content));
      case _ =>
        assert forall id :: Tended(s, Take(s, action, settings), id);
        TendedKeeps(s, Take(s, action, settings));
    }
  }

  lemma {:induction false} RunKeeps(s: Manager, actions: seq<Action>, settings: Settings)
    requires Placed(s) && Known(s) && CanRun(s, actions, settings)
    ensures Placed(Run(s, actions, settings)) && Known(Run(s, actions, settings))
    decreases |actions|
  {
    if actions != [] {
      ActionKeeps(s, actions[0], settings);
      RunKeeps(Take(s, actions[0], settings), actions[1..], settings);
    }
  }

  lemma {:induction false} NoneInHand(workers: seq<Worker>, id: nat)
    requires forall w :: 0 <= w < |workers| ==> workers[w].Getting?
    ensures Count(workers, OfWorker(id)) == 0
  {
    if workers != [] {
      NoneInHand(workers[1..], id);
    }
  }

  lemma OpeningKeeps(clock: Time, workers: nat)
    ensures Placed(Opening(clock, workers)) && Known(Opening(clock, workers))
  {
    forall id: nat
      ensures Places(Opening(clock, workers), id) + Outcomes(Opening(clock, workers), id) == 0
    {
      NoneInHand(Opening(clock, workers).workers, id);
    }
  }

  /**
   In every interleaving of the workers, idle ticks, requests and arrivals: a search is in
   at most one place, publishes at most one outcome, and is nowhere once it has. One under
   way seeks its content alone, has published nothing, and is not lost while the module runs.
   */
  lemma EveryRunPlaces(clock: Time, workers: nat, actions: seq<Action>, settings: Settings, id: nat)
    requires CanRun(Opening(clock, workers), actions, settings)
    ensures var s := Run(Opening(clock, workers), actions, settings);
            && Places(s, id) + Outcomes(s, id) <= 1
            && (Live(s, id) ==> Outcomes(s, id) == 0)
            && (Live(s, id) && s.running ==> Places(s, id) == 1)
            && (forall key :: key in s.table.underWay ==>
                  s.table.underWay[key] < |s.runs| && s.runs[s.table.underWay[key]].content == key)
  {
    OpeningKeeps(clock, workers);
    RunKeeps(Opening(clock, workers), actions, settings);
  }
}
