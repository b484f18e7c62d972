/** That a search makes all its passes before it gives up, and what each of its steps comes to. */
module Passing {
  import opened Wrappers
  import opened PartPaths
  import opened TimeLists
  import opened Searches
  import opened Searching

  // ---- Giving up ----------------------------------------------------------

  /** Whether a worker is giving search `id` up. */
  predicate GivesUp(worker: Worker, id: nat) {
    worker == Failing(id) || (worker.FailingAt? && worker.id == id) || worker == TellingFailed(id)
  }

  /** Whether a step is one in which a worker that has search `id` in hand crashes. */
  predicate Crashes(s: Manager, action: Action, id: nat) {
    && action.WorkerMoves? && action.outcome.Crash? && action.worker < |s.workers|
    && match s.workers[action.worker]
       case Picking(own) => own == id
       case Looking(own, _, _) => own == id
       case Asking(own, _) => own == id
       case Finding(own, _) => own == id
       case Telling(own, _) => own == id
       case _ => false
  }

  predicate Spared(s: Manager, actions: seq<Action>, settings: Settings, id: nat)
    requires CanRun(s, actions, settings)
    decreases |actions|
  {
    actions == [] || (!Crashes(s, actions[0], id) && Spared(Take(s, actions[0], settings), actions[1..], settings, id))
  }

  /** A search being given up, or that has been, has made its passes. */
  ghost predicate HasPassed(s: Manager, settings: Settings, id: nat) {
    (exists w :: 0 <= w < |s.workers| && GivesUp(s.workers[w], id)) || FoundNothing(id) in s.log ==>
      id < |s.runs| && s.runs[id].passNumber >= settings.passes
  }

  /** What a step leaves of search `id`: it goes no pass back, and is given up by none that was not. */
  ghost predicate GoesOn(s: Manager, after: Manager, settings: Settings, id: nat) {
    && |after.runs| >= |s.runs|
    && (id < |s.runs| ==> after.runs[id].passNumber >= s.runs[id].passNumber)
    && (FoundNothing(id) in after.log ==>
          FoundNothing(id) in s.log || exists w :: 0 <= w < |s.workers| && s.workers[w] == TellingFailed(id))
  }

  lemma GoesOnPassed(s: Manager, after: Manager, settings: Settings, id: nat)
    requires HasPassed(s, settings, id) && GoesOn(s, after, settings, id)
    requires forall w :: 0 <= w < |after.workers| && GivesUp(after.workers[w], id) ==>
               || (w < |s.workers| && GivesUp(s.workers[w], id))
               || (id < |after.runs| && after.runs[id].passNumber >= settings.passes)
    ensures HasPassed(after, settings, id)
  {
  }

  lemma LogOfMore(log: seq<Event>, event: Event, id: nat)
    ensures FoundNothing(id) in log + [event] <==> FoundNothing(id) in log || event == FoundNothing(id)
  {
  }

  lemma LooksPasses(s: Manager, w: nat, id: nat, ranked: seq<ContentId>, now: Time, settings: Settings, other: nat)
    requires w < |s.workers|
    ensures var after := Looks(s, w, id, ranked, now, settings);
            && GoesOn(s, after, settings, other)
            && |after.workers| == |s.workers| && after.workers == s.workers[w := after.workers[w]]
            && (GivesUp(after.workers[w], other) ==>
                  other < |after.runs| && after.runs[other].passNumber >= settings.passes)
  {
    if s.running && Live(s, id) && Choosing(s.runs[id], ranked, now).node.Some? {
      LogOfMore(s.log, AskedOf(id, Choosing(s.runs[id], ranked, now).node.value, s.runs[id].passNumber, now), other);
    }
  }

  lemma WorksPasses(s: Manager, w: nat, outcome: Outcome, settings: Settings, id: nat)
    requires Enabled(s, WorkerMoves(w, outcome)) && HasPassed(s, settings, id)
    requires !Crashes(s, WorkerMoves(w, outcome), id)
    ensures HasPassed(Works(s, w, outcome, settings), settings, id)
  {
    var worker, after := s.workers[w], Works(s, w, outcome, settings);
    if worker.Looking? {
      LooksPasses(s, w, worker.id, worker.ranked, worker.now, settings, id);
    } else {
      OthersPass(s, w, outcome, settings, id);
    }
    GoesOnPassed(s, after, settings, id);
  }

  lemma OthersPass(s: Manager, w: nat, outcome: Outcome, settings: Settings, id: nat)
    requires Enabled(s, WorkerMoves(w, outcome)) && !s.workers[w].Looking?
    requires !Crashes(s, WorkerMoves(w, outcome), id)
    ensures var after := Works(s, w, outcome, settings);
            && GoesOn(s, after, settings, id)
            && |after.workers| == |s.workers| && after.workers == s.workers[w := after.workers[w]]
            && (GivesUp(after.workers[w], id) ==> GivesUp(s.workers[w], id))
  {
    var after := Works(s, w, outcome, settings);
    if after.log != s.log {
      assert after.log == s.log + [after.log[|s.log|]];
      LogOfMore(s.log, after.log[|s.log|], id);
    }
  }

  lemma HandlesPasses(s: Manager, action: Action, settings: Settings, id: nat)
    requires Enabled(s, action) && !action.WorkerMoves? && HasPassed(s, settings, id)
    ensures HasPassed(Take(s, action, settings), settings, id)
  {
    var after := Take(s, action, settings);
    assert after.workers == s.workers;
    if after.log != s.log {
      assert after.log == s.log + [after.log[|s.log|]];
      LogOfMore(s.log, after.log[|s.log|], id);
    }
    GoesOnPassed(s, after, settings, id);
  }

  lemma {:induction false} RunPasses(s: Manager, actions: seq<Action>, settings: Settings, id: nat)
    requires CanRun(s, actions, settings) && Spared(s, actions, settings, id) && HasPassed(s, settings, id)
    ensures HasPassed(Run(s, actions, settings), settings, id)
    decreases |actions|
  {
    if actions != [] {
      if actions[0].WorkerMoves? {
        WorksPasses(s, actions[0].worker, actions[0].outcome, settings, id);
      } else {
        HandlesPasses(s, actions[0], settings, id);
      }
      RunPasses(Take(s, actions[0], settings), actions[1..], settings, id);
    }
  }

  /** In every run a search that publishes it found nothing has made all its passes, if none of its steps crashed. */
  lemma EveryRunMakesItsPasses(clock: Time, workers: nat, actions: seq<Action>, settings: Settings, id: nat)
    requires CanRun(Opening(clock, workers), actions, settings) && Spared(Opening(clock, workers), actions, settings, id)
    requires FoundNothing(id) in Run(Opening(clock, workers), actions, settings).log
    ensures var s := Run(Opening(clock, workers), actions, settings);
            id < |s.runs| && s.runs[id].passNumber >= settings.passes
  {
    RunPasses(Opening(clock, workers), actions, settings, id);
  }

  // ---- A pass over, and the next ------------------------------------------

  /** When a peer may be asked: at once, unless it asked to be left. */
  function MayBeAskedAt(run: Search, node: ContentId, now: Time): Time {
    if node in run.due then run.due[node] else now
  }

  /** Whether `latest` is when the last of `ranked` may be asked: now, if there is none. */
  predicate IsLatestDue(run: Search, ranked: seq<ContentId>, now: Time, latest: Time) {
    if ranked == [] then latest == now
    else
      && (forall i :: 0 <= i < |ranked| ==> MayBeAskedAt(run, ranked[i], now) <= latest)
      && exists i :: 0 <= i < |ranked| && MayBeAskedAt(run, ranked[i], now) == latest
  }

  lemma {:induction false} LatestIsLast(run: Search, ranked: seq<ContentId>, now: Time)
    ensures IsLatestDue(run, ranked, now, LastDue(run, ranked, now))
    decreases |ranked|
  {
    if |ranked| > 1 {
      var front := ranked[..|ranked| - 1];
      LatestIsLast(run, front, now);
      var i :| 0 <= i < |front| && MayBeAskedAt(run, front[i], now) == LastDue(run, front, now);
      assert ranked[i] == front[i] && ranked[|ranked| - 1] == ranked[|ranked| - 1];
      assert MayBeAskedAt(run, ranked[i], now) == LastDue(run, front, now);
      forall j | 0 <= j < |ranked|
        ensures MayBeAskedAt(run, ranked[j], now) <= LastDue(run, ranked, now)
      {
        if j < |front| {
          assert MayBeAskedAt(run, front[j], now) <= LastDue(run, front, now);
        }
      }
    } else if |ranked| == 1 {
      assert MayBeAskedAt(run, ranked[0], now) == LastDue(run, ranked, now);
    }
  }

  lemma LatestIsOne(run: Search, ranked: seq<ContentId>, now: Time, a: Time, b: Time)
    requires IsLatestDue(run, ranked, now, a) && IsLatestDue(run, ranked, now, b)
    ensures a == b
  {
  }

  /** Whether this pass has asked `node`, or may not ask it yet. */
  predicate IsPassed(run: Search, node: ContentId, now: Time) {
    node in run.asked || MayBeAskedAt(run, node, now) > now
  }

  /** What comes of a search that goes on, with nobody left to ask this pass. */
  ghost predicate PassesOn(s: Manager, after: Manager, w: nat, id: nat, latest: Time, now: Time, settings: Settings)
    requires w < |s.workers| == |after.workers| && id < |s.runs| == |after.runs|
  {
    var run, next := s.runs[id], after.runs[id];
    var resume := if latest < now + settings.pause then latest else now + settings.pause;
    if run.passNumber >= settings.passes then
      next.passNumber == run.passNumber && after.workers[w] == Failing(id) && after.table == s.table
    else
      && next == run.(passNumber := run.passNumber + 1, asked := {})
      && Live(after, id)
      && if resume > now then
           && after.workers[w] == Getting
           && multiset(after.table.waiting) == multiset(s.table.waiting) + multiset{Wait(resume, s.table.order, id)}
         else after.workers[w] == Picking(id) && after.table == s.table
  }

  lemma {:induction false} InsertedIsOneMore(waits: seq<Wait<nat>>, w: Wait<nat>)
    ensures multiset(Inserted(waits, w)) == multiset(waits) + multiset{w}
  {
    InsertedHolds(waits, w);
  }

  /**
   A search that nobody is left to ask this pass starts its next, with nobody asked in it, while
   it has passes left: once all may be asked again, but no later than a pause from now. After
   its last it is given up.
   */
  lemma NobodyLeftPassesOn(s: Manager, w: nat, outcome: Outcome, settings: Settings, id: nat, ranked: seq<ContentId>,
                           now: Time, latest: Time)
    requires Enabled(s, WorkerMoves(w, outcome)) && !outcome.Crash?
    requires s.workers[w] == Looking(id, ranked, now) && s.running && Live(s, id)
    requires forall i :: 0 <= i < |ranked| ==> IsPassed(s.runs[id], ranked[i], now)
    requires IsLatestDue(s.runs[id], ranked, now, latest)
    ensures var after := Works(s, w, outcome, settings);
            && |after.workers| == |s.workers| && |after.runs| == |s.runs| && after.log == s.log
            && PassesOn(s, after, w, id, latest, now, settings)
  {
    var run := s.runs[id];
    var chosen := Choosing(run, ranked, now);
    NobodyChosen(run, ranked, now);
    LatestIsLast(run, ranked, now);
    SameDue(run, chosen.search, ranked, now);
    LatestIsOne(run, ranked, now, latest, LastDue(run, ranked, now));
    var until := Searches.Resuming(chosen.search, ranked, now, settings.pause);
    InsertedIsOneMore(s.table.waiting, Wait(until, s.table.order, id));
  }

  lemma NobodyChosen(run: Search, ranked: seq<ContentId>, now: Time)
    requires forall i :: 0 <= i < |ranked| ==> IsPassed(run, ranked[i], now)
    ensures Choosing(run, ranked, now).node.None?
  {
    ChoosesBest(run, ranked, now);
    forall i | 0 <= i < |ranked|
      ensures PassedOver(run, ranked[i], now)
    {
      assert IsPassed(run, ranked[i], now);
    }
  }

  lemma {:induction false} SameDue(run: Search, tried: Search, ranked: seq<ContentId>, now: Time)
    requires run.due == tried.due
    ensures LastDue(run, ranked, now) == LastDue(tried, ranked, now)
    decreases |ranked|
  {
    if |ranked| > 1 {
      SameDue(run, tried, ranked[..|ranked| - 1], now);
    }
  }

  /** With a peer to ask, it asks the best, and notes that it has. */
  lemma SomebodyIsAsked(s: Manager, w: nat, outcome: Outcome, settings: Settings, id: nat, ranked: seq<ContentId>,
                        now: Time, k: nat)
    requires Enabled(s, WorkerMoves(w, outcome)) && !outcome.Crash?
    requires s.workers[w] == Looking(id, ranked, now) && s.running && Live(s, id)
    requires k < |ranked| && !IsPassed(s.runs[id], ranked[k], now)
    requires forall i :: 0 <= i < k ==> IsPassed(s.runs[id], ranked[i], now)
    ensures var after := Works(s, w, outcome, settings);
            && after.workers == s.workers[w := Asking(id, ranked[k])] && after.table == s.table
            && after.log == s.log + [AskedOf(id, ranked[k], s.runs[id].passNumber, now)]
            && Live(after, id) && ranked[k] in after.runs[id].asked && after.runs[id].asks == s.runs[id].asks + 1
  {
    var run := s.runs[id];
    ChoosesBest(run, ranked, now);
    assert !PassedOver(run, ranked[k], now);
    assert forall i :: 0 <= i < k ==> PassedOver(run, ranked[i], now) by {
      forall i | 0 <= i < k
        ensures PassedOver(run, ranked[i], now)
      {
        assert IsPassed(run, ranked[i], now);
      }
    }
  }

  // ---- What the other steps come to ---------------------------------------

  /** A peer that did not send the content may be asked again once it said, or after a pause. */
  lemma RefusalIsNoted(s: Manager, w: nat, outcome: Outcome, settings: Settings, id: nat, node: ContentId)
    requires Enabled(s, WorkerMoves(w, outcome)) && outcome.NotFound?
    requires s.workers[w] == Asking(id, node) && id < |s.runs|
    ensures var after := Works(s, w, outcome, settings);
            && after.workers[w] == Picking(id) && |after.runs| == |s.runs| && after.table == s.table
            && MayBeAskedAt(after.runs[id], node, s.clock) ==
               s.clock + (if outcome.retryAfter.Some? then outcome.retryAfter.value else settings.pause)
            && forall other :: other != node ==>
                 MayBeAskedAt(after.runs[id], other, s.clock) == MayBeAskedAt(s.runs[id], other, s.clock)
  {
  }

  /** One that sent it ends the search, which then says so. */
  lemma FindingEnds(s: Manager, w: nat, outcome: Outcome, settings: Settings, id: nat, node: ContentId)
    requires Enabled(s, WorkerMoves(w, outcome)) && !outcome.Crash?
    ensures s.workers[w] == Asking(id, node) && outcome.Sent? ==>
              Works(s, w, outcome, settings).workers[w] == Finding(id, node)
    ensures s.workers[w] == Finding(id, node) ==>
              !Live(Works(s, w, outcome, settings), id) && Works(s, w, outcome, settings).workers[w] == Telling(id, node)
    ensures s.workers[w] == Telling(id, node) ==>
              Works(s, w, outcome, settings).log == s.log + [Succeeded(id)] &&
              Works(s, w, outcome, settings).workers[w] == Getting
  {
  }

  /** A search given up ends, if it is still under way, and holds its content off if it asked anybody. */
  lemma FailingHoldsOff(s: Manager, w: nat, outcome: Outcome, settings: Settings, id: nat, now: Time)
    requires Enabled(s, WorkerMoves(w, outcome)) && s.workers[w] == FailingAt(id, now)
    requires EachOnce(s.table.held)
    ensures var after := Works(s, w, outcome, settings);
            if !Live(s, id) then after == s.(workers := s.workers[w := Getting])
            else
              var content := s.runs[id].content;
              && !Live(after, id) && after.workers[w] == TellingFailed(id)
              && (s.runs[id].asks > 0 ==>
                    At(after.table.held, content) == Some(now + settings.hold) &&
                    after.log == s.log + [HeldOff(content, now + settings.hold)])
              && (s.runs[id].asks == 0 ==> after.table.held == s.table.held && after.log == s.log)
  {
    if Live(s, id) {
      PutIsAt(s.table.held, s.runs[id].content, now + settings.hold, s.runs[id].content);
    }
  }

  /** A search asked for starts if and only if none is under way for its content, nor is it held off till later. */
  lemma StartsIfItMay(s: Manager, settings: Settings, content: ContentId, now: Time)
    requires s.handler == Fetching(content, now) && EachOnce(s.table.held)
    ensures var after := Take(s, HandlerMoves, settings);
            var held := At(s.table.held, content);
            var starts := content !in s.table.underWay && (held.Some? ==> held.value <= now);
            && (content in after.table.underWay <==> starts || content in s.table.underWay)
            && (if starts then
                  && after.runs == s.runs + [Search(content, 1, 0, {}, map[])] && after.handler == Putting([|s.runs|])
                  && after.table.underWay[content] == |s.runs| && after.log == s.log + [Started(|s.runs|, content, now)]
                  && At(after.table.held, content).None?
                else after.runs == s.runs && after.handler == Idle && after.log == s.log)
  {
    DroppedIsOver(s.table.held, now, content);
    WithoutIsNotAt(Dropped(s.table.held, now), content, content);
  }

  /** Content that arrives is sought no more, nor held off. */
  lemma ArrivingEnds(s: Manager, settings: Settings, content: ContentId)
    requires Enabled(s, Store(content)) && EachOnce(s.table.held)
    ensures var after := Take(s, Store(content), settings);
            && content !in after.table.underWay && At(after.table.held, content).None?
            && forall other :: other != content ==>
                 && (other in after.table.underWay <==> other in s.table.underWay)
                 && (other in s.table.underWay ==> after.table.underWay[other] == s.table.underWay[other])
                 && At(after.table.held, other) == At(s.table.held, other)
  {
    forall other
      ensures At(Without(s.table.held, content), other) == if other == content then None else At(s.table.held, other)
    {
      WithoutIsNotAt(s.table.held, content, other);
    }
  }

  /** Told to stop, it runs no more, and tells each of its workers, one after another. */
  lemma StoppingTellsEach(s: Manager, settings: Settings)
    requires Enabled(s, StopAll) && s.running
    ensures var after := Take(s, StopAll, settings); !after.running && after.handler == Stopping(|s.workers|)
  {
  }

  lemma {:induction false} EachIsTold(s: Manager, settings: Settings) returns (actions: seq<Action>)
    requires s.handler.Stopping?
    ensures |actions| == s.handler.left + 1 && CanRun(s, actions, settings)
    ensures Run(s, actions, settings) == s.(ready := s.ready + seq(s.handler.left, _ => Stop), handler := Idle)
    decreases s.handler.left
  {
    if s.handler.left == 0 {
      actions := [HandlerMoves];
      assert s.ready + seq(0, _ => Stop) == s.ready;
    } else {
      var next := Take(s, HandlerMoves, settings);
      var rest := EachIsTold(next, settings);
      actions := [HandlerMoves] + rest;
      assert actions[1..] == rest;
      assert [Stop] + seq(s.handler.left - 1, _ => Stop) == seq(s.handler.left, _ => Stop);
      Regrouped(s.ready, [Stop], seq(s.handler.left - 1, _ => Stop));
    }
  }

  // ---- Searches ready are taken up in their order -------------------------

  /** What a step makes ready. */
  function PutBy(s: Manager, action: Action): seq<Message> {
    if !action.HandlerMoves? then []
    else
      match s.handler
      case Putting(ids) => if ids == [] then [] else [Carry(ids[0])]
      case Stopping(left) => if left == 0 then [] else [Message.Stop]
      case _ => []
  }

  /** What a worker took up in the step that led `after` it. */
  function TakenBy(s: Manager, action: Action, after: Manager): seq<Message> {
    if !action.WorkerMoves? || action.worker >= |s.workers| || action.worker >= |after.workers| ||
       !s.workers[action.worker].Getting?
    then []
    else
      match after.workers[action.worker]
      case Picking(id) => [Carry(id)]
      case Stopped => [Message.Stop]
      case _ => []
  }

  function AllPut(s: Manager, actions: seq<Action>, settings: Settings): seq<Message>
    requires CanRun(s, actions, settings)
    decreases |actions|
  {
    if actions == [] then [] else PutBy(s, actions[0]) + AllPut(Take(s, actions[0], settings), actions[1..], settings)
  }

  function AllTaken(s: Manager, actions: seq<Action>, settings: Settings): seq<Message>
    requires CanRun(s, actions, settings)
    decreases |actions|
  {
    if actions == [] then []
    else
      var after := Take(s, actions[0], settings);
      TakenBy(s, actions[0], after) + AllTaken(after, actions[1..], settings)
  }

  lemma StepTakesFirst(s: Manager, action: Action, settings: Settings)
    requires Enabled(s, action)
    ensures var after := Take(s, action, settings); TakenBy(s, action, after) + after.ready == s.ready + PutBy(s, action)
  {
    if action.WorkerMoves? && s.workers[action.worker].Getting? {
      assert [s.ready[0]] + s.ready[1..] == s.ready;
    }
  }

  /** In every run what workers have taken up, followed by what is ready, is what was ready and all made so, in order. */
  lemma {:induction false} EveryRunTakesInOrder(s: Manager, actions: seq<Action>, settings: Settings)
    requires CanRun(s, actions, settings)
    ensures AllTaken(s, actions, settings) + Run(s, actions, settings).ready == s.ready + AllPut(s, actions, settings)
    decreases |actions|
  {
    if actions != [] {
      var after := Take(s, actions[0], settings);
      StepTakesFirst(s, actions[0], settings);
      EveryRunTakesInOrder(after, actions[1..], settings);
      var taken, put := AllTaken(after, actions[1..], settings), AllPut(after, actions[1..], settings);
      Regrouped(TakenBy(s, actions[0], after), taken, Run(after, actions[1..], settings).ready);
      Regrouped(TakenBy(s, actions[0], after), after.ready, put);
      Regrouped(s.ready, PutBy(s, actions[0]), put);
    }
  }
}
