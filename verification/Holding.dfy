/** A search that has ended asks no further, and one that found nothing holds off the next. */
module Holding {
  import opened Wrappers
  import opened PartPaths
  import opened Counting
  import opened Searches
  import opened TimeLists
  import opened Searching
  import Pacing

  // ---- Stale searches -----------------------------------------------------

  /** What is under way was begun. */
  predicate AllBegun(s: Manager) {
    forall key :: key in s.table.underWay ==> s.table.underWay[key] < |s.runs|
  }

  /** What ended stays ended, and its log of asks is closed. */
  predicate StaleStays(s: Manager, after: Manager, id: nat)
    requires id < |s.runs|
  {
    && id < |after.runs| && after.runs[id].content == s.runs[id].content
    && (!Live(s, id) ==> !Live(after, id) && Count(after.log, Pacing.OfAsk(id)) == Count(s.log, Pacing.OfAsk(id)))
  }

  lemma LogAsks(log: seq<Event>, after: seq<Event>, id: nat)
    requires after == log || (|after| == |log| + 1 && after[..|log|] == log && !Pacing.IsAsk(after[|log|], id))
    ensures Count(after, Pacing.OfAsk(id)) == Count(log, Pacing.OfAsk(id))
  {
    if after != log {
      assert after == log + [after[|log|]];
      CountMore(log, after[|log|], Pacing.OfAsk(id));
    }
  }

  lemma WorksStale(s: Manager, w: nat, outcome: Outcome, settings: Settings, id: nat)
    requires Enabled(s, WorkerMoves(w, outcome)) && AllBegun(s) && id < |s.runs|
    ensures AllBegun(Works(s, w, outcome, settings)) && StaleStays(s, Works(s, w, outcome, settings), id)
  {
    var after := Works(s, w, outcome, settings);
    assert |after.runs| == |s.runs| && after.runs[id].content == s.runs[id].content;
    if !Live(s, id) {
      LogAsks(s.log, after.log, id);
    }
  }

  lemma ActionStale(s: Manager, action: Action, settings: Settings, id: nat)
    requires Enabled(s, action) && AllBegun(s) && id < |s.runs|
    ensures AllBegun(Take(s, action, settings)) && StaleStays(s, Take(s, action, settings), id)
  {
    if action.WorkerMoves? {
      WorksStale(s, action.worker, action.outcome, settings, id);
    } else {
      LogAsks(s.log, Take(s, action, settings).log, id);
    }
  }

  /** However a run goes on, a search no longer under way never is again, and asks no peer. */
  lemma {:induction false} StaleForGood(s: Manager, actions: seq<Action>, settings: Settings, id: nat)
    requires AllBegun(s) && CanRun(s, actions, settings) && id < |s.runs|
    ensures AllBegun(Run(s, actions, settings)) && StaleStays(s, Run(s, actions, settings), id)
    decreases |actions|
  {
    if actions != [] {
      ActionStale(s, actions[0], settings, id);
      StaleForGood(Take(s, actions[0], settings), actions[1..], settings, id);
    }
  }

  // ---- Holds --------------------------------------------------------------

  /** Until when the last search for `content` to find nothing held it off, if it has not arrived since. */
  function Barred(log: seq<Event>, content: ContentId): Option<Time> {
    if log == [] then None
    else
      var last := log[|log| - 1];
      if last.HeldOff? && last.content == content then Some(last.until)
      else if last == Arrived(content) then None
      else Barred(log[..|log| - 1], content)
  }

  lemma BarredMore(log: seq<Event>, event: Event, content: ContentId)
    ensures Barred(log + [event], content) ==
            if event.HeldOff? && event.content == content then Some(event.until)
            else if event == Arrived(content) then None
            else Barred(log, content)
  {
    assert (log + [event])[..|log|] == log;
  }

  /** No search started while what it seeks was held off. */
  predicate StartsUnheld(log: seq<Event>) {
    forall j :: 0 <= j < |log| && log[j].Started? ==> Pacing.NotBefore(Barred(log[..j], log[j].content), log[j].at)
  }

  lemma OneMoreUnheld(log: seq<Event>, event: Event)
    requires StartsUnheld(log)
    requires event.Started? ==> Pacing.NotBefore(Barred(log, event.content), event.at)
    ensures StartsUnheld(log + [event])
  {
    var more := log + [event];
    forall j | 0 <= j < |more| && more[j].Started?
      ensures Pacing.NotBefore(Barred(more[..j], more[j].content), more[j].at)
    {
      assert more[..j] == log[..j];
      if j == |log| {
        assert log[..j] == log;
      }
    }
  }

  /** The time the module's thread has in hand. */
  function Reading(s: Manager): Time {
    match s.handler
    case Fetching(_, now) => now
    case Resuming(now) => now
    case _ => s.seen
  }

  /** What is held off is held, until the module's thread has seen that time. */
  predicate HeldTill(s: Manager, content: ContentId) {
    var until := Barred(s.log, content);
    until.Some? ==> At(s.table.held, content) == until || until.value <= s.seen
  }

  ghost predicate Guarded(s: Manager) {
    && EachOnce(s.table.held) && s.seen <= Reading(s) <= s.clock
    && (forall content :: HeldTill(s, content))
    && (forall content :: content in s.table.underWay ==> At(s.table.held, content).None?)
    && StartsUnheld(s.log)
  }

  /** A step that starts nothing, holds nothing and lets nothing go. */
  predicate Aside(s: Manager, after: Manager) {
    && after.table.held == s.table.held && after.seen == s.seen
    && s.clock <= after.clock && s.seen <= Reading(after) <= after.clock
    && (forall key :: key in after.table.underWay ==> key in s.table.underWay)
    && (after.log == s.log ||
        (|after.log| == |s.log| + 1 && after.log[..|s.log|] == s.log &&
         var event := after.log[|s.log|]; !event.Started? && !event.HeldOff? && !event.Arrived?))
  }

  lemma AsideKeeps(s: Manager, after: Manager)
    requires Guarded(s) && Aside(s, after)
    ensures Guarded(after)
  {
    if after.log != s.log {
      var event := after.log[|s.log|];
      assert after.log == s.log + [event];
      OneMoreUnheld(s.log, event);
      forall content ensures HeldTill(after, content) {
        BarredMore(s.log, event, content);
        assert HeldTill(s, content);
      }
    } else {
      forall content ensures HeldTill(after, content) {
        assert HeldTill(s, content);
      }
    }
  }

  lemma ArrivesKeeps(s: Manager, content: ContentId)
    requires Guarded(s) && s.handler.Idle?
    ensures Guarded(Arrives(s, content))
  {
    var after := Arrives(s, content);
    OneMoreUnheld(s.log, Arrived(content));
    WithoutIsNotAt(s.table.held, content, content);
    forall other
      ensures HeldTill(after, other)
      ensures other in after.table.underWay ==> At(after.table.held, other).None?
    {
      BarredMore(s.log, Arrived(content), other);
      WithoutIsNotAt(s.table.held, content, other);
      assert HeldTill(s, other);
    }
  }

  /** Holds forgotten are over by the time now seen. */
  lemma ForgetsKeeps(s: Manager, now: Time, after: Manager)
    requires Guarded(s) && s.seen <= now <= s.clock
    requires after == s.(table := s.table.(held := Dropped(s.table.held, now)), seen := now, handler := Idle)
    ensures Guarded(after)
  {
    DroppedIsOver(s.table.held, now, ContentId("", ""));
    forall content
      ensures HeldTill(after, content)
      ensures content in after.table.underWay ==> At(after.table.held, content).None?
    {
      DroppedIsOver(s.table.held, now, content);
      assert HeldTill(s, content);
    }
  }

  lemma StartsKeeps(s: Manager, content: ContentId, id: nat, now: Time, after: Manager)
    requires Guarded(s) && s.seen == now && UntilOf(s.table.held, content, now) <= now
    requires after.table.held == Without(s.table.held, content)
    requires after.table.underWay == s.table.underWay[content := id]
    requires after.log == s.log + [Started(id, content, now)]
    requires after.seen == s.seen && after.clock == s.clock && Reading(after) == s.seen
    ensures Guarded(after)
  {
    var event := Started(id, content, now);
    assert HeldTill(s, content);
    OneMoreUnheld(s.log, event);
    WithoutIsNotAt(s.table.held, content, content);
    forall other
      ensures HeldTill(after, other)
      ensures other in after.table.underWay ==> At(after.table.held, other).None?
    {
      BarredMore(s.log, event, other);
      WithoutIsNotAt(s.table.held, content, other);
      assert HeldTill(s, other);
    }
  }

  lemma BeginsKeepsGuarded(s: Manager, content: ContentId, now: Time)
    requires Guarded(s) && s.handler == Fetching(content, now)
    ensures Guarded(Begins(s, content, now))
  {
    var forgot := s.(table := s.table.(held := Dropped(s.table.held, now)), seen := now, handler := Idle);
    ForgetsKeeps(s, now, forgot);
    var after := Begins(s, content, now);
    if after.runs != s.runs {
      StartsKeeps(forgot, content, |s.runs|, now, after);
    }
  }

  lemma HoldsKeeps(s: Manager, content: ContentId, until: Time, after: Manager)
    requires Guarded(s) && content in s.table.underWay
    requires after.table.held == Put(s.table.held, content, until)
    requires after.table.underWay == s.table.underWay - {content}
    requires after.log == s.log + [HeldOff(content, until)]
    requires after.seen == s.seen && after.clock == s.clock && after.handler == s.handler
    ensures Guarded(after)
  {
    OneMoreUnheld(s.log, HeldOff(content, until));
    PutIsAt(s.table.held, content, until, content);
    forall other
      ensures HeldTill(after, other)
      ensures other in after.table.underWay ==> At(after.table.held, other).None?
    {
      BarredMore(s.log, HeldOff(content, until), other);
      PutIsAt(s.table.held, content, until, other);
      assert HeldTill(s, other);
    }
  }

  lemma WorksKeepsGuarded(s: Manager, w: nat, outcome: Outcome, settings: Settings)
    requires Guarded(s) && Enabled(s, WorkerMoves(w, outcome))
    ensures Guarded(Works(s, w, outcome, settings))
  {
    var worker := s.workers[w];
    var after := Works(s, w, outcome, settings);
    if worker.FailingAt? {
      FailsKeepsGuarded(s, w, worker.id, worker.now, settings);
    } else {
      AsideKeeps(s, after);
    }
  }

  lemma FailsKeepsGuarded(s: Manager, w: nat, id: nat, now: Time, settings: Settings)
    requires Guarded(s) && w < |s.workers|
    ensures Guarded(Fails(s, w, id, now, settings))
  {
    var after := Fails(s, w, id, now, settings);
    if Live(s, id) && s.runs[id].asks != 0 {
      HoldsKeeps(s, s.runs[id].content, now + settings.hold, after);
    } else {
      AsideKeeps(s, after);
    }
  }

  lemma ActionKeepsGuarded(s: Manager, action: Action, settings: Settings)
    requires Guarded(s) && Enabled(s, action)
    ensures Guarded(Take(s, action, settings))
  {
    match action {
      case WorkerMoves(w, outcome) => WorksKeepsGuarded(s, w, outcome, settings);
      case Store(content) => ArrivesKeeps(s, content);
      case HandlerMoves =>
        if s.handler.Fetching? {
          BeginsKeepsGuarded(s, s.handler.content, s.handler.now);
        } else {
          AsideKeeps(s, Handles(s));
        }
      case _ => AsideKeeps(s, Take(s, action, settings));
    }
  }

  lemma {:induction false} RunKeepsGuarded(s: Manager, actions: seq<Action>, settings: Settings)
    requires Guarded(s) && CanRun(s, actions, settings)
    ensures Guarded(Run(s, actions, settings))
    decreases |actions|
  {
    if actions != [] {
      ActionKeepsGuarded(s, actions[0], settings);
      RunKeepsGuarded(Take(s, actions[0], settings), actions[1..], settings);
    }
  }

  /**
   In every run, no search starts before the time the last one for its content, having
   asked and found nothing, held it off until, unless the content arrived meanwhile; and
   what is under way is not held.
   */
  lemma EveryRunHolds(clock: Time, workers: nat, actions: seq<Action>, settings: Settings)
    requires CanRun(Opening(clock, workers), actions, settings)
    ensures var s := Run(Opening(clock, workers), actions, settings);
            && StartsUnheld(s.log)
            && forall content :: content in s.table.underWay ==> At(s.table.held, content).None?
  {
    RunKeepsGuarded(Opening(clock, workers), actions, settings);
  }

  // ---- Waits --------------------------------------------------------------

  ghost predicate Heaped(s: Manager) {
    SoonestFirst(s.table.waiting) && OrdersBelow(s.table.waiting, s.table.order)
  }

  lemma ActionKeepsHeaped(s: Manager, action: Action, settings: Settings)
    requires Heaped(s) && Enabled(s, action)
    ensures Heaped(Take(s, action, settings))
  {
    var after := Take(s, action, settings);
    if action.WorkerMoves? && s.workers[action.worker].Looking? && after.table.waiting != s.table.waiting {
      var worker := s.workers[action.worker];
      var search := Choosing(s.runs[worker.id], worker.ranked, worker.now).search;
      InsertedIsSoonestFirst(s.table.waiting,
                             Wait(Searches.Resuming(search, worker.ranked, worker.now, settings.pause),
                                  s.table.order, worker.id));
    }
  }

  lemma {:induction false} RunKeepsHeaped(s: Manager, actions: seq<Action>, settings: Settings)
    requires Heaped(s) && CanRun(s, actions, settings)
    ensures Heaped(Run(s, actions, settings))
    decreases |actions|
  {
    if actions != [] {
      ActionKeepsHeaped(s, actions[0], settings);
      RunKeepsHeaped(Take(s, actions[0], settings), actions[1..], settings);
    }
  }

  /** In every run, an idle tick hands on every search whose wait is over by then, and no other. */
  lemma EveryRunResumes(clock: Time, workers: nat, actions: seq<Action>, settings: Settings)
    requires CanRun(Opening(clock, workers), actions, settings)
    requires Run(Opening(clock, workers), actions, settings).handler.Resuming?
    ensures var s := Run(Opening(clock, workers), actions, settings);
            var waiting, n := s.table.waiting, |Handles(s).handler.ids|;
            && Handles(s).handler == Putting(RunsOf(waiting[..n])) && Handles(s).table.waiting == waiting[n..]
            && forall i :: 0 <= i < |waiting| ==> (waiting[i].until <= s.handler.now <==> i < n)
  {
    RunKeepsHeaped(Opening(clock, workers), actions, settings);
    var s := Run(Opening(clock, workers), actions, settings);
    OverAreDue(s.table.waiting, s.handler.now);
  }
}
