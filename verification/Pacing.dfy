/** How often searches ask, how soon, and how soon one for the same content starts again. */
module Pacing {
  import opened Wrappers
  import opened PartPaths
  import opened Counting
  import opened Searches
  import opened TimeLists
  import opened Searching

  predicate IsAskIn(event: Event, id: nat, node: ContentId, pass: nat) {
    event.AskedOf? && event.id == id && event.node == node && event.pass == pass
  }

  function OfAskIn(id: nat, node: ContentId, pass: nat): Event -> bool {
    event => IsAskIn(event, id, node, pass)
  }

  predicate IsAskOf(event: Event, id: nat, node: ContentId) {
    event.AskedOf? && event.id == id && event.node == node
  }

  function OfAskOf(id: nat, node: ContentId): Event -> bool {
    event => IsAskOf(event, id, node)
  }

  predicate IsAsk(event: Event, id: nat) {
    event.AskedOf? && event.id == id
  }

  function OfAsk(id: nat): Event -> bool {
    event => IsAsk(event, id)
  }

  /** Until when `node` last asked search `id` to be left. */
  function LastRefusal(log: seq<Event>, id: nat, node: ContentId): Option<Time> {
    if log == [] then None
    else
      var last := log[|log| - 1];
      if last.Refused? && last.id == id && last.node == node then Some(last.until)
      else LastRefusal(log[..|log| - 1], id, node)
  }

  function DueOf(run: Search, node: ContentId): Option<Time> {
    if node in run.due then Some(run.due[node]) else None
  }

  predicate NotBefore(due: Option<Time>, at: Time) {
    due.Some? ==> due.value <= at
  }

  /** No ask came before the peer asked, last refusing, might be asked again. */
  predicate OnTime(log: seq<Event>) {
    forall j :: 0 <= j < |log| && log[j].AskedOf? ==> NotBefore(LastRefusal(log[..j], log[j].id, log[j].node), log[j].at)
  }

  /** What the log holds of search `id`, as that search has noted it. */
  ghost predicate Noted(log: seq<Event>, id: nat, run: Search, node: ContentId) {
    && Count(log, OfAsk(id)) == run.asks
    && Count(log, OfAskOf(id, node)) + (if node in run.asked then 0 else 1) <= run.passNumber
    && (forall pass :: Count(log, OfAskIn(id, node, pass)) <= 1)
    && (forall pass :: pass > run.passNumber || (pass == run.passNumber && node !in run.asked) ==>
          Count(log, OfAskIn(id, node, pass)) == 0)
    && LastRefusal(log, id, node) == DueOf(run, node)
  }

  ghost predicate Untold(log: seq<Event>, id: nat, node: ContentId) {
    && Count(log, OfAsk(id)) == 0 && Count(log, OfAskOf(id, node)) == 0
    && (forall pass :: Count(log, OfAskIn(id, node, pass)) == 0)
    && LastRefusal(log, id, node) == None
  }

  ghost predicate Paced(s: Manager, settings: Settings) {
    && (forall id, node :: 0 <= id < |s.runs| ==> Noted(s.log, id, s.runs[id], node))
    && (forall id, node :: id >= |s.runs| ==> Untold(s.log, id, node))
    && (forall id :: 0 <= id < |s.runs| ==> s.runs[id].passNumber <= settings.passes)
    && OnTime(s.log)
  }

  // ---- One more event -----------------------------------------------------

  lemma OneMore(log: seq<Event>, event: Event, id: nat, node: ContentId)
    ensures Count(log + [event], OfAsk(id)) == Count(log, OfAsk(id)) + if IsAsk(event, id) then 1 else 0
    ensures Count(log + [event], OfAskOf(id, node)) == Count(log, OfAskOf(id, node)) + if IsAskOf(event, id, node) then 1 else 0
    ensures forall pass :: Count(log + [event], OfAskIn(id, node, pass)) ==
                           Count(log, OfAskIn(id, node, pass)) + if IsAskIn(event, id, node, pass) then 1 else 0
    ensures LastRefusal(log + [event], id, node) ==
            if event.Refused? && event.id == id && event.node == node then Some(event.until)
            else LastRefusal(log, id, node)
  {
    CountMore(log, event, OfAsk(id));
    CountMore(log, event, OfAskOf(id, node));
    forall pass: nat
      ensures Count(log + [event], OfAskIn(id, node, pass)) ==
              Count(log, OfAskIn(id, node, pass)) + if IsAskIn(event, id, node, pass) then 1 else 0
    {
      CountMore(log, event, OfAskIn(id, node, pass));
    }
    assert (log + [event])[..|log|] == log;
  }

  lemma OneMoreOnTime(log: seq<Event>, event: Event)
    requires OnTime(log)
    requires event.AskedOf? ==> NotBefore(LastRefusal(log, event.id, event.node), event.at)
    ensures OnTime(log + [event])
  {
    var more := log + [event];
    forall j | 0 <= j < |more| && more[j].AskedOf?
      ensures NotBefore(LastRefusal(more[..j], more[j].id, more[j].node), more[j].at)
    {
      assert more[..j] == log[..j];
      if j == |log| {
        assert log[..j] == log;
      }
    }
  }

  /** A step that asks nobody, and notes no refusal. */
  predicate Quiet(s: Manager, after: Manager) {
    && (after.log == s.log ||
        (|after.log| == |s.log| + 1 && after.log[..|s.log|] == s.log &&
         !after.log[|s.log|].AskedOf? && !after.log[|s.log|].Refused?))
    && after.runs == s.runs
  }

  lemma QuietKeeps(s: Manager, after: Manager, settings: Settings)
    requires Paced(s, settings) && Quiet(s, after)
    ensures Paced(after, settings)
  {
    if after.log != s.log {
      var event := after.log[|s.log|];
      assert after.log == s.log + [event];
      OneMoreOnTime(s.log, event);
      forall id: nat, node
        ensures id < |s.runs| ==> Noted(after.log, id, s.runs[id], node)
        ensures id >= |s.runs| ==> Untold(after.log, id, node)
      {
        OneMore(s.log, event, id, node);
        if id < |s.runs| {
          assert Noted(s.log, id, s.runs[id], node);
        } else {
          assert Untold(s.log, id, node);
        }
      }
    }
  }

  // ---- The steps that ask -------------------------------------------------

  /** Asking the peer chosen, or passing over all and perhaps starting the next pass. */
  lemma LooksNoted(log: seq<Event>, id: nat, run: Search, ranked: seq<ContentId>, now: Time, node: ContentId)
    requires Noted(log, id, run, node)
    ensures var chosen := Choosing(run, ranked, now);
            match chosen.node
            case Some(asked) => Noted(log + [AskedOf(id, asked, run.passNumber, now)], id, chosen.search, node)
            case None => Noted(log, id, chosen.search, node) && Noted(log, id, NextPass(chosen.search), node)
  {
    var chosen := Choosing(run, ranked, now);
    if chosen.node.Some? {
      OneMore(log, AskedOf(id, chosen.node.value, run.passNumber, now), id, node);
    }
  }

  lemma LooksKeeps(s: Manager, w: nat, id: nat, ranked: seq<ContentId>, now: Time, settings: Settings)
    requires Paced(s, settings) && w < |s.workers|
    ensures Paced(Looks(s, w, id, ranked, now, settings), settings)
  {
    var after := Looks(s, w, id, ranked, now, settings);
    if !s.running || !Live(s, id) {
      QuietKeeps(s, after, settings);
    } else {
      var chosen := Choosing(s.runs[id], ranked, now);
      if chosen.node.Some? {
        AskKeeps(s, after, id, ranked, now, settings);
      } else {
        forall node
          ensures Noted(s.log, id, after.runs[id], node)
        {
          assert Noted(s.log, id, s.runs[id], node);
          LooksNoted(s.log, id, s.runs[id], ranked, now, node);
        }
        assert after.log == s.log && after.runs == s.runs[id := after.runs[id]];
      }
    }
  }

  lemma AskKeeps(s: Manager, after: Manager, id: nat, ranked: seq<ContentId>, now: Time, settings: Settings)
    requires Paced(s, settings) && id < |s.runs| && Choosing(s.runs[id], ranked, now).node.Some?
    requires var chosen := Choosing(s.runs[id], ranked, now);
             && after.runs == s.runs[id := chosen.search]
             && after.log == s.log + [AskedOf(id, chosen.node.value, s.runs[id].passNumber, now)]
    ensures Paced(after, settings)
  {
    var chosen := Choosing(s.runs[id], ranked, now);
    var event := AskedOf(id, chosen.node.value, s.runs[id].passNumber, now);
    assert Noted(s.log, id, s.runs[id], chosen.node.value);
    OneMoreOnTime(s.log, event);
    forall other: nat, node
      ensures other < |s.runs| ==> Noted(after.log, other, after.runs[other], node)
      ensures other >= |s.runs| ==> Untold(after.log, other, node)
    {
      if other == id {
        assert Noted(s.log, id, s.runs[id], node);
        LooksNoted(s.log, id, s.runs[id], ranked, now, node);
      } else {
        OneMore(s.log, event, other, node);
        if other < |s.runs| {
          assert Noted(s.log, other, s.runs[other], node);
        } else {
          assert Untold(s.log, other, node);
        }
      }
    }
  }

  lemma RefusalKeeps(s: Manager, after: Manager, id: nat, refusing: ContentId, until: Time, settings: Settings)
    requires Paced(s, settings) && id < |s.runs|
    requires after.runs == s.runs[id := Refusing(s.runs[id], refusing, until)]
    requires after.log == s.log + [Refused(id, refusing, until)]
    ensures Paced(after, settings)
  {
    var event := Refused(id, refusing, until);
    OneMoreOnTime(s.log, event);
    forall other: nat, node
      ensures other < |s.runs| ==> Noted(after.log, other, after.runs[other], node)
      ensures other >= |s.runs| ==> Untold(after.log, other, node)
    {
      OneMore(s.log, event, other, node);
      if other < |s.runs| {
        assert Noted(s.log, other, s.runs[other], node);
      } else {
        assert Untold(s.log, other, node);
      }
    }
  }

  lemma BeginsKeepsPaced(s: Manager, content: ContentId, now: Time, settings: Settings)
    requires Paced(s, settings) && settings.passes >= 1
    ensures Paced(Begins(s, content, now), settings)
  {
    var after := Begins(s, content, now);
    if after.runs == s.runs {
      QuietKeeps(s, after, settings);
    } else {
      var quiet := after.(runs := s.runs);
      QuietKeeps(s, quiet, settings);
      forall id: nat, node
        ensures id < |after.runs| ==> Noted(after.log, id, after.runs[id], node)
        ensures id >= |after.runs| ==> Untold(after.log, id, node)
      {
        if id < |s.runs| {
          assert Noted(quiet.log, id, quiet.runs[id], node);
        } else {
          assert Untold(quiet.log, id, node);
        }
      }
    }
  }

  lemma AsksKeeps(s: Manager, w: nat, id: nat, node: ContentId, outcome: Outcome, settings: Settings)
    requires Paced(s, settings) && w < |s.workers|
    ensures Paced(Asks(s, w, id, node, outcome, settings), settings)
  {
    var after := Asks(s, w, id, node, outcome, settings);
    if outcome.NotFound? && id < |s.runs| {
      RefusalKeeps(s, after, id, node, s.clock + (match outcome.retryAfter case None => settings.pause case Some(t) => t),
                   settings);
    } else {
      QuietKeeps(s, after, settings);
    }
  }

  lemma WorksKeepsPaced(s: Manager, w: nat, outcome: Outcome, settings: Settings)
    requires Paced(s, settings) && Enabled(s, WorkerMoves(w, outcome))
    ensures Paced(Works(s, w, outcome, settings), settings)
  {
    var worker := s.workers[w];
    if worker.Looking? && !outcome.Crash? {
      LooksKeeps(s, w, worker.id, worker.ranked, worker.now, settings);
    } else if worker.Asking? && !outcome.Crash? {
      AsksKeeps(s, w, worker.id, worker.node, outcome, settings);
    } else {
      QuietKeeps(s, Works(s, w, outcome, settings), settings);
    }
  }

  lemma ActionKeepsPaced(s: Manager, action: Action, settings: Settings)
    requires Paced(s, settings) && settings.passes >= 1 && Enabled(s, action)
    ensures Paced(Take(s, action, settings), settings)
  {
    if action.WorkerMoves? {
      WorksKeepsPaced(s, action.worker, action.outcome, settings);
    } else if action.HandlerMoves? && s.handler.Fetching? {
      BeginsKeepsPaced(s, s.handler.content, s.handler.now, settings);
    } else {
      QuietKeeps(s, Take(s, action, settings), settings);
    }
  }

  lemma {:induction false} RunKeepsPaced(s: Manager, actions: seq<Action>, settings: Settings)
    requires Paced(s, settings) && settings.passes >= 1 && CanRun(s, actions, settings)
    ensures Paced(Run(s, actions, settings), settings)
    decreases |actions|
  {
    if actions != [] {
      ActionKeepsPaced(s, actions[0], settings);
      RunKeepsPaced(Take(s, actions[0], settings), actions[1..], settings);
    }
  }

  /**
   In every run, a search asks each peer at most once a pass and at most once for each of
   its passes in all, and never before that peer, having last refused it, may be asked again.
   */
  lemma EveryRunPaces(clock: Time, workers: nat, actions: seq<Action>, settings: Settings,
                      id: nat, node: ContentId, pass: nat)
    requires settings.passes >= 1 && CanRun(Opening(clock, workers), actions, settings)
    ensures var log := Run(Opening(clock, workers), actions, settings).log;
            && Count(log, OfAskIn(id, node, pass)) <= 1
            && Count(log, OfAskOf(id, node)) <= settings.passes
            && OnTime(log)
  {
    var s := Run(Opening(clock, workers), actions, settings);
    assert Paced(Opening(clock, workers), settings);
    RunKeepsPaced(Opening(clock, workers), actions, settings);
    if id < |s.runs| {
      assert Noted(s.log, id, s.runs[id], node);
    } else {
      assert Untold(s.log, id, node);
    }
  }
}
