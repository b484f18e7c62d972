/** That each message is attended to: what eviction starts, asks for or waits for, and what it gives up. */
module Attending {
  import opened Wrappers
  import opened PartPaths
  import opened TimeLists
  import opened Pressure
  import opened Evictions
  import opened Letting

  // ---- Evicting -----------------------------------------------------------

  /**
   Whether nothing is left to start, going by a reading of the clock and one of the free space:
   it is paused, as much as may be is under way, resolved files are being reclaimed, what is
   under way frees the excess, or all that was listed is started and more is asked for.
   */
  predicate NothingToStart(s: Eviction, now: Time, free: int, settings: Settings) {
    || now < s.pausedUntil || |s.handingOff| >= settings.maxHandOffs || s.reclaiming.sentAt.Some?
    || Excess(settings.limits, s.heldBytes, free) <= Freeing(s.handingOff)
    || (s.candidates == [] && s.asking.sentAt.Some?)
  }

  /** Whether that is so by readings taken since. */
  ghost predicate Attended(after: Eviction, ticks: nat, looks: nat, settings: Settings, world: World) {
    exists t: nat, l: nat ::
      ticks <= t < after.ticks && looks <= l <= after.looks &&
      NothingToStart(after, world.clock(t), world.free(l), settings)
  }

  /** What starting hand-offs changes, besides the log. */
  predicate StartsFrom(s: Eviction, after: Eviction) {
    && after == s.(handingOff := after.handingOff, candidates := after.candidates, asking := after.asking,
                   ticks := after.ticks, log := after.log)
    && after.ticks >= s.ticks && s.handingOff <= after.handingOff
    && |after.candidates| <= |s.candidates| && after.candidates == s.candidates[|s.candidates| - |after.candidates|..]
  }

  lemma {:induction false} StartsOnly(s: Eviction, freeing: nat, excess: nat, settings: Settings, world: World)
    ensures StartsFrom(s, StartHandOffs(s, freeing, excess, settings, world))
    decreases |s.candidates|
  {
    if freeing < excess && |s.handingOff| < settings.maxHandOffs && s.candidates != [] {
      var held, popped := s.candidates[0], s.(candidates := s.candidates[1..]);
      StartStep(s, freeing, excess, settings, world);
      if PassedOver(s, held.content, settings) {
        StartsOnly(popped, freeing, excess, settings, world);
        StartsFromOne(s, popped, StartHandOffs(s, freeing, excess, settings, world));
      } else {
        StartsOnly(HandOffOf(popped, held, world), freeing + held.size, excess, settings, world);
        StartsFromOne(s, HandOffOf(popped, held, world), StartHandOffs(s, freeing, excess, settings, world));
      }
    }
  }

  lemma StartsFromOne(s: Eviction, next: Eviction, after: Eviction)
    requires s.candidates != [] && StartsFrom(next, after)
    requires next == s.(candidates := s.candidates[1..], handingOff := next.handingOff, ticks := next.ticks, log := next.log)
    requires s.handingOff <= next.handingOff && next.ticks >= s.ticks
    ensures StartsFrom(s, after)
  {
  }

  /** What was listed first is taken first: each handed off, unless it may not be or is already. */
  lemma {:induction false} FirstAreTaken(s: Eviction, freeing: nat, excess: nat, settings: Settings, world: World, k: nat)
    requires k < |s.candidates| - |StartHandOffs(s, freeing, excess, settings, world).candidates|
    ensures var after, content := StartHandOffs(s, freeing, excess, settings, world), s.candidates[k].content;
            || HandingOff(after.handingOff, content)
            || IsKept(s, content, settings) || At(s.storedAt, content).Some?
    decreases |s.candidates|
  {
    if freeing < excess && |s.handingOff| < settings.maxHandOffs && s.candidates != [] {
      var held, popped := s.candidates[0], s.(candidates := s.candidates[1..]);
      StartStep(s, freeing, excess, settings, world);
      var next := if PassedOver(s, held.content, settings) then popped else HandOffOf(popped, held, world);
      var freed := if PassedOver(s, held.content, settings) then freeing else freeing + held.size;
      StartsOnly(next, freed, excess, settings, world);
      if k > 0 {
        FirstAreTaken(next, freed, excess, settings, world, k - 1);
      } else if !PassedOver(s, held.content, settings) {
        HandingOneMore(s.handingOff, HandOff(held.content, held.size, world.clock(s.ticks)), held.content);
        StillHandingOff(next.handingOff, StartHandOffs(s, freeing, excess, settings, world).handingOff, held.content);
      } else if HandingOff(s.handingOff, held.content) {
        StillHandingOff(s.handingOff, StartHandOffs(s, freeing, excess, settings, world).handingOff, held.content);
      }
    }
  }

  lemma {:induction false} StillHandingOff(hands: seq<HandOff>, more: seq<HandOff>, content: ContentId)
    requires hands <= more && HandingOff(hands, content)
    ensures HandingOff(more, content)
  {
    if hands[0].content != content {
      StillHandingOff(hands[1..], more[1..], content);
    }
  }

  /** Letting go of an excess starts what may be, unless resolved files are reclaimed first. */
  lemma LetGoAttends(s: Eviction, excess: nat, settings: Settings, world: World)
    ensures var after := LetGo(s, excess, settings, world);
            && after.pausedUntil == s.pausedUntil && after.heldBytes == s.heldBytes && after.full == s.full
            && after.ticks >= s.ticks && after.looks >= s.looks
            && (|| |after.handingOff| >= settings.maxHandOffs || after.reclaiming.sentAt.Some?
                || Freeing(after.handingOff) >= excess || (after.candidates == [] && after.asking.sentAt.Some?))
  {
    var (asked, reclaims) := Reclaims(s, settings, world);
    if !reclaims {
      var forgot := ForgetOldStores(asked, settings, world);
      StartsOnly(forgot, Freeing(s.handingOff), excess, settings, world);
      assert EachNeeded(forgot.handingOff, |forgot.handingOff|, excess);
      StartsWhatIsNeeded(forgot, excess, |forgot.handingOff|, settings, world);
    }
  }

  /** Resolved files are reclaimed first exactly where that is due and free space is short. */
  lemma ReclaimsExactly(s: Eviction, excess: nat, settings: Settings, world: World)
    requires s.reclaiming.sentAt.None?
    ensures var after := LetGo(s, excess, settings, world);
            && (after.reclaiming.sentAt.Some? <==>
                  world.clock(s.ticks) >= s.reclaiming.nextAt && settings.limits.minFree > 0 &&
                  world.free(s.looks) < settings.limits.minFree)
            && (after.reclaiming.sentAt.Some? ==>
                  after.handingOff == s.handingOff && after.log == s.log + [ReclaimRequested])
  {
    var (asked, reclaims) := Reclaims(s, settings, world);
    if !reclaims {
      StartsOnly(ForgetOldStores(asked, settings, world), Freeing(s.handingOff), excess, settings, world);
    }
  }

  /** Evicting leaves nothing to start; and says whether storage is full, by the free space then. */
  lemma EvictAttends(s: Eviction, settings: Settings, world: World)
    ensures Attended(Evict(s, settings, world), s.ticks, s.looks, settings, world)
    ensures Evict(s, settings, world).full ==
            Some(OverLimits(settings.limits, s.heldBytes, world.free(s.looks), settings.limits.maxObject))
  {
    var reported := ReportFull(s, false, settings, world);
    assert reported.ticks == s.ticks && s.looks <= reported.looks && reported.heldBytes == s.heldBytes;
    ReportedAttends(reported, settings, world);
    var after := EvictAfter(reported, settings, world);
    assert NothingToStart(after, world.clock(s.ticks), world.free(reported.looks), settings);
  }

  lemma ReportedAttends(s: Eviction, settings: Settings, world: World)
    ensures var after := EvictAfter(s, settings, world);
            && NothingToStart(after, world.clock(s.ticks), world.free(s.looks), settings)
            && after.ticks > s.ticks && after.looks >= s.looks && after.full == s.full
  {
    var ticked := s.(ticks := s.ticks + 1);
    var excess := Excess(settings.limits, s.heldBytes, world.free(s.looks));
    LetGoAttends(Looked(ticked, settings), excess, settings, world);
  }

  // ---- Each message -------------------------------------------------------

  lemma AttendedSince(after: Eviction, ticks: nat, looks: nat, earlier: nat, before: nat, settings: Settings, world: World)
    requires Attended(after, ticks, looks, settings, world) && earlier <= ticks && before <= looks
    ensures Attended(after, earlier, before, settings, world)
  {
    var t: nat, l: nat :| ticks <= t < after.ticks && looks <= l <= after.looks &&
                          NothingToStart(after, world.clock(t), world.free(l), settings);
    assert earlier <= t < after.ticks && before <= l <= after.looks;
  }

  /** Whether anything has timed out by `now`, or a pause is over. */
  predicate SomethingIsOver(s: Eviction, now: Time, settings: Settings) {
    || (exists i :: 0 <= i < |s.handingOff| && now - s.handingOff[i].startedAt >= settings.handOffTimeout)
    || (s.asking.sentAt.Some? && now - s.asking.sentAt.value >= settings.candidatesTimeout)
    || (s.reclaiming.sentAt.Some? && now - s.reclaiming.sentAt.value >= settings.reclaimTimeout)
    || 0.0 < s.pausedUntil <= now
  }

  /** The messages after which eviction goes on: all that may leave something to start. */
  predicate GoesOnWith(s: Eviction, action: Action, settings: Settings, world: World) {
    match action
    case Store(_, _) => true
    case Acknowledge(_, nodes) => nodes != {}
    case List(objects) => objects != []
    case Shun(content) => content in s.store && !IsKept(s, content, settings)
    case Reclaim => true
    case Idle => SomethingIsOver(s, world.clock(s.ticks), settings)
    case _ => false
  }

  /** Each such message is attended to. */
  lemma MessagesAreAttended(s: Eviction, action: Action, settings: Settings, world: World)
    requires GoesOnWith(s, action, settings, world)
    ensures Attended(Take(s, action, settings, world), s.ticks, s.looks, settings, world)
  {
    match action {
      case Store(content, size) =>
        Attends(s, Noting(ForgetOldStores(s, settings, world), content, size, world), settings, world);
      case Acknowledge(content, nodes) =>
        var heard := Told(s.(handingOff := WithoutHandOff(s.handingOff, content)), Acknowledged(content, |nodes|));
        assert |nodes| >= 1;
        Attends(s, LetGoOf(heard, content, settings, world), settings, world);
      case List(objects) =>
        Attends(s, Told(s.(asking := Answered(s.asking), candidates := objects), CandidatesListed), settings, world);
      case Shun(content) =>
        var dropped := Told(s, Shunned(content)).(storedAt := Without(s.storedAt, content),
                                                  candidates := Listing(s.candidates, content));
        Attends(s, Delete(dropped, content, IsShunned), settings, world);
      case Reclaim => Attends(s, Told(s.(reclaiming := Answered(s.reclaiming)), Reclaimed), settings, world);
      case Idle => IdleAttends(s, settings, world);
    }
  }

  lemma Attends(s: Eviction, middle: Eviction, settings: Settings, world: World)
    requires middle.ticks >= s.ticks && middle.looks >= s.looks
    ensures Attended(Evict(middle, settings, world), s.ticks, s.looks, settings, world)
  {
    EvictAttends(middle, settings, world);
    AttendedSince(Evict(middle, settings, world), middle.ticks, middle.looks, s.ticks, s.looks, settings, world);
  }

  /** Those kept on are the hand-offs not yet overdue, in order. */
  lemma {:induction false} InTimeExactly(hands: seq<HandOff>, now: Time, timeout: Time)
    ensures forall hand :: hand in InTime(hands, now, timeout) <==> hand in hands && now - hand.startedAt < timeout
    ensures |InTime(hands, now, timeout)| <= |hands|
    ensures |InTime(hands, now, timeout)| == |hands| <==>
            forall i :: 0 <= i < |hands| ==> now - hands[i].startedAt < timeout
    ensures |InTime(hands, now, timeout)| == |hands| ==> InTime(hands, now, timeout) == hands
  {
    if hands != [] {
      InTimeExactly(hands[1..], now, timeout);
      assert hands == [hands[0]] + hands[1..];
    }
  }

  lemma IdleAttends(s: Eviction, settings: Settings, world: World)
    requires SomethingIsOver(s, world.clock(s.ticks), settings)
    ensures Attended(OnIdle(s, settings, world), s.ticks, s.looks, settings, world)
  {
    var reported := ReportFull(s, false, settings, world);
    var now := world.clock(s.ticks);
    var ticked := reported.(ticks := reported.ticks + 1);
    var after := GivesUp(ticked, now, settings);
    assert reported.ticks == s.ticks && reported.handingOff == s.handingOff && reported.looks >= s.looks;
    InTimeExactly(s.handingOff, now, settings.handOffTimeout);
    IdleIs(s, reported, ticked, after, settings, world);
    assert Changed(ticked, after);
    Attends(s, after, settings, world);
  }

  /**
   An idle tick gives up on the hand-offs overdue and on requests unanswered for too long, and
   ends a pause that is over.
   */
  lemma IdleGivesUp(s: Eviction, settings: Settings, world: World)
    ensures var now, given := world.clock(s.ticks), GivesUp(s, world.clock(s.ticks), settings);
            && (forall hand :: hand in given.handingOff <==>
                  hand in s.handingOff && now - hand.startedAt < settings.handOffTimeout)
            && (given.asking.sentAt.Some? <==>
                  s.asking.sentAt.Some? && now - s.asking.sentAt.value < settings.candidatesTimeout)
            && (given.reclaiming.sentAt.Some? <==>
                  s.reclaiming.sentAt.Some? && now - s.reclaiming.sentAt.value < settings.reclaimTimeout)
            && given.pausedUntil == (if 0.0 < s.pausedUntil <= now then 0.0 else s.pausedUntil)
  {
    InTimeExactly(s.handingOff, world.clock(s.ticks), settings.handOffTimeout);
  }

  /** With nothing over, it does no more than say whether storage is full. */
  lemma IdleWaitsOn(s: Eviction, settings: Settings, world: World)
    requires !SomethingIsOver(s, world.clock(s.ticks), settings)
    ensures var reported := ReportFull(s, false, settings, world);
            OnIdle(s, settings, world) == reported.(ticks := reported.ticks + 1)
  {
    var now := world.clock(s.ticks);
    var reported := ReportFull(s, false, settings, world);
    var ticked := reported.(ticks := reported.ticks + 1);
    InTimeExactly(s.handingOff, now, settings.handOffTimeout);
    NothingIsGivenUp(ticked, now, settings);
    IdleIs(s, reported, ticked, ticked, settings, world);
  }

  lemma NothingIsGivenUp(s: Eviction, now: Time, settings: Settings)
    requires !SomethingIsOver(s, now, settings)
    ensures GivesUp(s, now, settings) == s
  {
    InTimeExactly(s.handingOff, now, settings.handOffTimeout);
  }

  /** With nothing listed and nothing under way, it waits for the first store still in its grace, or for a retry. */
  lemma NothingListedWaits(s: Eviction, settings: Settings, world: World)
    requires s.handingOff == [] && Excess(settings.limits, s.heldBytes, world.free(s.looks)) > 0
    ensures var after := OnCandidates(s, [], settings, world);
            var stores := ForgetOldStores(s, settings, world).storedAt;
            && after.asking.sentAt.None? && after.candidates == []
            && (stores != [] ==> after.pausedUntil == stores[0].at + settings.grace)
            && (stores == [] ==> exists t: nat :: s.ticks <= t < after.ticks &&
                                   after.pausedUntil == world.clock(t) + settings.retryDelay)
  {
    var listed := Told(s.(asking := Answered(s.asking), candidates := []), CandidatesListed);
    var forgot := ForgetOldStores(Looked(listed, settings), settings, world);
    if forgot.storedAt == [] {
      assert OnCandidates(s, [], settings, world).pausedUntil == world.clock(forgot.ticks) + settings.retryDelay;
    }
  }

  /** Taken by nobody, content stays, and nothing is started for as long as a retry waits. */
  lemma NobodyTookIt(s: Eviction, content: ContentId, settings: Settings, world: World)
    requires OneEach(s.handingOff)
    ensures var after := OnAcknowledged(s, content, {}, settings, world);
            && after.pausedUntil == world.clock(s.ticks) + settings.retryDelay && after.store == s.store
            && forall other :: HandingOff(after.handingOff, other) <==> HandingOff(s.handingOff, other) && other != content
  {
    forall other
      ensures HandingOff(WithoutHandOff(s.handingOff, content), other) <==>
              HandingOff(s.handingOff, other) && other != content
    {
      OneEachWithout(s.handingOff, content, other);
    }
  }

  lemma {:induction false} ListingDropsIt(candidates: seq<HeldObject>, content: ContentId)
    ensures forall held :: held in Listing(candidates, content) <==> held in candidates && held.content != content
  {
    if candidates != [] {
      ListingDropsIt(candidates[1..], content);
      assert candidates == [candidates[0]] + candidates[1..];
    }
  }

  /** Shunned, content is deleted, if it is held and no key needed; its size is no longer counted. */
  lemma ShunningDeletes(s: Eviction, content: ContentId, settings: Settings, world: World)
    ensures var after := OnDataShunned(s, content, settings, world);
            && (IsKept(s, content, settings) ==> after == s.(log := s.log + [Shunned(content)]))
            && (!IsKept(s, content, settings) ==> after.store == s.store - {content})
            && (!IsKept(s, content, settings) && content in s.store ==>
                  s.log + [Shunned(content), Deleted(content, s.store[content], IsShunned)] <= after.log &&
                  after.heldBytes == if s.store[content] > s.heldBytes then 0 else s.heldBytes - s.store[content])
  {
    var dropped := Told(s, Shunned(content)).(storedAt := Without(s.storedAt, content),
                                              candidates := Listing(s.candidates, content));
    if !IsKept(s, content, settings) && content in s.store {
      var deleted := Delete(dropped, content, IsShunned);
      assert deleted.log == s.log + [Shunned(content), Deleted(content, s.store[content], IsShunned)];
      EvictKeepsStore(deleted, settings, world);
      EvictOnlyTells(deleted, settings, world);
    }
  }

  lemma {:induction false} StartOnlyTells(s: Eviction, freeing: nat, excess: nat, settings: Settings, world: World)
    ensures s.log <= StartHandOffs(s, freeing, excess, settings, world).log
    decreases |s.candidates|
  {
    if freeing < excess && |s.handingOff| < settings.maxHandOffs && s.candidates != [] {
      var held, popped := s.candidates[0], s.(candidates := s.candidates[1..]);
      StartStep(s, freeing, excess, settings, world);
      if PassedOver(s, held.content, settings) {
        StartOnlyTells(popped, freeing, excess, settings, world);
      } else {
        StartOnlyTells(HandOffOf(popped, held, world), freeing + held.size, excess, settings, world);
      }
    }
  }

  /** Evicting adds to the log, and counts no bytes. */
  lemma EvictOnlyTells(s: Eviction, settings: Settings, world: World)
    ensures s.log <= Evict(s, settings, world).log && Evict(s, settings, world).heldBytes == s.heldBytes
  {
    var reported := ReportFull(s, false, settings, world);
    var ticked := reported.(ticks := reported.ticks + 1);
    EvictIs(s, settings, world);
    var looked, excess := Looked(ticked, settings), Excess(settings.limits, s.heldBytes, world.free(ticked.looks));
    LetGoAttends(looked, excess, settings, world);
    LetGoOnlyTells(looked, excess, settings, world);
  }

  lemma LetGoOnlyTells(s: Eviction, excess: nat, settings: Settings, world: World)
    ensures s.log <= LetGo(s, excess, settings, world).log
  {
    var (asked, reclaims) := Reclaims(s, settings, world);
    if !reclaims {
      StartOnlyTells(ForgetOldStores(asked, settings, world), Freeing(s.handingOff), excess, settings, world);
    }
  }

  /** What is stored is noted as stored now, in its grace, and its bytes counted. */
  lemma StoringNotes(s: Eviction, content: ContentId, size: nat, settings: Settings, world: World)
    requires EachOnce(s.storedAt)
    ensures var noted := Noting(ForgetOldStores(s, settings, world), content, size, world);
            && At(noted.storedAt, content) == Some(world.clock(s.ticks + 1))
            && OnDataStored(s, content, size, settings, world).heldBytes == s.heldBytes + size
  {
    var forgot := ForgetOldStores(s, settings, world);
    DroppedIsOver(s.storedAt, world.clock(s.ticks) - settings.grace, content);
    WithoutIsNotAt(forgot.storedAt, content, content);
    EachOnceMore(Without(forgot.storedAt, content), Entry(content, world.clock(s.ticks + 1)), content);
    EvictOnlyTells(Noting(forgot, content, size, world), settings, world);
  }

  // ---- What is said and asked ---------------------------------------------

  /** Whether storage is full is said where that changed since it was last said, or it is asked for. */
  lemma FullIsSaid(s: Eviction, always: bool, settings: Settings, world: World)
    ensures var after := ReportFull(s, always, settings, world);
            var full := (settings.limits.minFree > 0 &&
                         world.free(s.looks) - settings.limits.maxObject < settings.limits.minFree) ||
                        (settings.limits.maxHeld.Some? &&
                         s.heldBytes + settings.limits.maxObject > settings.limits.maxHeld.value);
            && after.full == Some(full)
            && after.log == s.log + (if always || s.full != Some(full) then [SaidFull(full)] else [])
  {
  }

  /** What more is asked for leaves out what is under way, the keys of peers connected and what is in its grace. */
  lemma MoreIsAskedFor(s: Eviction, needed: nat, world: World)
    requires s.asking.sentAt.None?
    ensures var after := AskForCandidates(s, needed, world);
            && after.asking.sentAt == Some(world.clock(s.ticks))
            && |after.log| == |s.log| + 1 && s.log <= after.log
            && var asked := after.log[|s.log|];
               && asked.CandidatesRequested? && asked.bytes == needed
               && forall id :: id in asked.exclude <==>
                    || (exists i :: 0 <= i < |s.handingOff| && s.handingOff[i].content == id)
                    || id in s.outbound || id in s.inbound
                    || (exists i :: 0 <= i < |s.storedAt| && s.storedAt[i].key == id)
  {
  }

  /** Where what was listed runs out, as much is asked for as what is under way falls short of the excess. */
  lemma {:induction false} RestIsAskedFor(s: Eviction, excess: nat, settings: Settings, world: World)
    ensures var after := StartHandOffs(s, Freeing(s.handingOff), excess, settings, world);
            s.asking.sentAt.None? && after.asking.sentAt.Some? ==>
              && after.candidates == [] && after.log != []
              && after.log[|after.log| - 1].CandidatesRequested?
              && after.log[|after.log| - 1].bytes == excess - Freeing(after.handingOff) > 0
    decreases |s.candidates|
  {
    if Freeing(s.handingOff) < excess && |s.handingOff| < settings.maxHandOffs && s.candidates != [] {
      var held, popped := s.candidates[0], s.(candidates := s.candidates[1..]);
      StartStep(s, Freeing(s.handingOff), excess, settings, world);
      if PassedOver(s, held.content, settings) {
        RestIsAskedFor(popped, excess, settings, world);
      } else {
        var hand := HandOff(held.content, held.size, world.clock(s.ticks));
        assert EachNeeded(s.handingOff, |s.handingOff|, excess);
        OneMoreNeeded(s.handingOff, hand, |s.handingOff|, excess);
        RestIsAskedFor(HandOffOf(popped, held, world), excess, settings, world);
      }
    }
  }
}
