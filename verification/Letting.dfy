/** What eviction keeps in every run, whatever order its messages come in. */
module Letting {
  import opened Wrappers
  import opened PartPaths
  import opened TimeLists
  import opened Pressure
  import opened Evictions

  ghost predicate Monotone(world: World) {
    forall i, j :: i <= j ==> world.clock(i) <= world.clock(j)
  }

  // ---- What the log says --------------------------------------------------

  /**
   What has been told so far: when each content was last stored, if it was not shunned
   since, while it was no key needed; the peers last named each way; the last pause; whether stats or the unbundler has
   been asked, and not answered or been given up on; and the bytes stored less those deleted.
   */
  datatype Summary = Summary(
    stored: map<ContentId, Time>,
    outbound: set<ContentId>,
    inbound: set<ContentId>,
    pause: Option<Time>,
    asking: bool,
    reclaiming: bool,
    net: int)

  const NOTHING := Summary(map[], {}, {}, None, false, false, 0)

  function After(t: Summary, event: Event, settings: Settings): Summary {
    match event
    case Stored(content, size, at) => t.(stored := t.stored[content := at], net := t.net + size)
    case Shunned(content) => if IsNeeded(t, content, settings) then t else t.(stored := t.stored - {content})
    case Named(direction, nodes) => if direction.Outbound? then t.(outbound := nodes) else t.(inbound := nodes)
    case Paused(until) => t.(pause := Some(until))
    case CandidatesRequested(_, _) => t.(asking := true)
    case CandidatesListed => t.(asking := false)
    case GaveUpAsking => t.(asking := false)
    case ReclaimRequested => t.(reclaiming := true)
    case Reclaimed => t.(reclaiming := false)
    case GaveUpReclaiming => t.(reclaiming := false)
    case Deleted(_, size, _) => t.(net := t.net - size)
    case _ => t
  }

  function Summarized(log: seq<Event>, settings: Settings): Summary {
    if log == [] then NOTHING else After(Summarized(log[..|log| - 1], settings), log[|log| - 1], settings)
  }

  lemma SummarizedMore(log: seq<Event>, event: Event, settings: Settings)
    ensures Summarized(log + [event], settings) == After(Summarized(log, settings), event, settings)
  {
    assert (log + [event])[..|log|] == log;
  }

  /** Nothing was stored, or its grace is over by `now`. */
  predicate GraceOver(t: Summary, content: ContentId, grace: Time, now: Time) {
    content in t.stored ==> t.stored[content] + grace <= now
  }

  predicate IsNeeded(t: Summary, content: ContentId, settings: Settings) {
    content == settings.nodeId || content in t.outbound || content in t.inbound
  }

  /** Whether `event` may come next, `last` having come before it. */
  predicate MayFollow(t: Summary, last: Option<Event>, event: Event, settings: Settings) {
    match event
    case Deleted(content, _, cause) =>
      && !IsNeeded(t, content, settings)
      && (match cause
          case IsShunned => last == Some(Shunned(content))
          case HandedOff(at) =>
            && last.Some? && last.value.Acknowledged? && last.value.content == content && last.value.holders >= 1
            && GraceOver(t, content, settings.grace, at))
    case Noticed(content, at) =>
      && !IsNeeded(t, content, settings) && GraceOver(t, content, settings.grace, at)
      && !t.reclaiming && (t.pause.Some? ==> t.pause.value <= at)
    case CandidatesRequested(_, _) => !t.asking
    case ReclaimRequested => !t.reclaiming
    case _ => true
  }

  function LastOf(log: seq<Event>): Option<Event> {
    if log == [] then None else Some(log[|log| - 1])
  }

  /** Whether the `j`-th event might come when it did. */
  predicate LawfulAt(log: seq<Event>, j: nat, settings: Settings)
    requires j < |log|
  {
    MayFollow(Summarized(log[..j], settings), LastOf(log[..j]), log[j], settings)
  }

  predicate Lawful(log: seq<Event>, settings: Settings) {
    forall j :: 0 <= j < |log| ==> LawfulAt(log, j, settings)
  }

  lemma OneMoreLawful(log: seq<Event>, event: Event, settings: Settings)
    requires Lawful(log, settings) && MayFollow(Summarized(log, settings), LastOf(log), event, settings)
    ensures Lawful(log + [event], settings)
  {
    var more := log + [event];
    forall j | 0 <= j < |more|
      ensures LawfulAt(more, j, settings)
    {
      assert more[..j] == log[..j];
      if j == |log| {
        assert log[..j] == log;
      } else {
        assert LawfulAt(log, j, settings);
      }
    }
  }

  // ---- What the state keeps -----------------------------------------------

  predicate OneEach(hands: seq<HandOff>) {
    hands == [] || (!HandingOff(hands[1..], hands[0].content) && OneEach(hands[1..]))
  }

  lemma {:induction false} HandingOneMore(hands: seq<HandOff>, hand: HandOff, content: ContentId)
    ensures HandingOff(hands + [hand], content) <==> HandingOff(hands, content) || hand.content == content
  {
    if hands != [] {
      assert (hands + [hand])[1..] == hands[1..] + [hand];
      HandingOneMore(hands[1..], hand, content);
    }
  }

  lemma {:induction false} OneEachMore(hands: seq<HandOff>, hand: HandOff)
    requires OneEach(hands) && !HandingOff(hands, hand.content)
    ensures OneEach(hands + [hand])
  {
    if hands != [] {
      assert (hands + [hand])[1..] == hands[1..] + [hand];
      HandingOneMore(hands[1..], hand, hands[0].content);
      OneEachMore(hands[1..], hand);
    }
  }

  lemma {:induction false} OneEachWithout(hands: seq<HandOff>, content: ContentId, other: ContentId)
    requires OneEach(hands)
    ensures OneEach(WithoutHandOff(hands, content)) && |WithoutHandOff(hands, content)| <= |hands|
    ensures HandingOff(WithoutHandOff(hands, content), other) <==> HandingOff(hands, other) && other != content
  {
    if hands != [] {
      OneEachWithout(hands[1..], content, other);
      OneEachWithout(hands[1..], content, hands[0].content);
    }
  }

  lemma {:induction false} OneEachInTime(hands: seq<HandOff>, now: Time, timeout: Time, other: ContentId)
    requires OneEach(hands)
    ensures OneEach(InTime(hands, now, timeout)) && |InTime(hands, now, timeout)| <= |hands|
    ensures HandingOff(InTime(hands, now, timeout), other) ==> HandingOff(hands, other)
  {
    if hands != [] {
      OneEachInTime(hands[1..], now, timeout, other);
      OneEachInTime(hands[1..], now, timeout, hands[0].content);
      var rest := InTime(hands[1..], now, timeout);
      assert ([hands[0]] + rest)[1..] == rest && [] + rest == rest;
    }
  }

  /** The time last read. */
  predicate Passed(s: Eviction, time: Time, world: World) {
    s.ticks > 0 && time <= world.clock(s.ticks - 1)
  }

  /** What was stored within its grace is noted, and what is noted was stored then. */
  predicate Remembers(s: Eviction, t: Summary, content: ContentId, settings: Settings, world: World) {
    && (content in t.stored ==>
          At(s.storedAt, content) == Some(t.stored[content]) || Passed(s, t.stored[content] + settings.grace, world))
    && (At(s.storedAt, content).Some? ==>
          content in t.stored && t.stored[content] == At(s.storedAt, content).value)
  }

  /** Stores are noted in order of time, none later than the time last read. */
  predicate Timely(s: Eviction, world: World) {
    InOrder(s.storedAt) && (s.storedAt != [] ==> s.ticks > 0 && UpTo(s.storedAt, world.clock(s.ticks - 1)))
  }

  /** Whether a state keeps its limits, and what it was told. */
  ghost predicate Fits(s: Eviction, t: Summary, start: nat, settings: Settings, world: World) {
    && |s.handingOff| <= settings.maxHandOffs && OneEach(s.handingOff) && EachOnce(s.storedAt)
    && Timely(s, world) && (forall content :: Remembers(s, t, content, settings, world))
    && s.outbound == t.outbound && s.inbound == t.inbound
    && (s.asking.sentAt.Some? <==> t.asking) && (s.reclaiming.sentAt.Some? <==> t.reclaiming)
    && (t.pause.Some? ==> t.pause.value <= s.pausedUntil || Passed(s, t.pause.value, world))
    && s.heldBytes >= start + t.net
  }

  ghost predicate Sound(s: Eviction, start: nat, settings: Settings, world: World) {
    Fits(s, Summarized(s.log, settings), start, settings, world) && Lawful(s.log, settings)
  }

  /** Something told or done, that might be then, and what it leaves. */
  lemma Happens(s: Eviction, after: Eviction, event: Event, start: nat, settings: Settings, world: World)
    requires Sound(s, start, settings, world) && after.log == s.log + [event]
    requires MayFollow(Summarized(s.log, settings), LastOf(s.log), event, settings)
    requires Fits(after, After(Summarized(s.log, settings), event, settings), start, settings, world)
    ensures Sound(after, start, settings, world)
  {
    SummarizedMore(s.log, event, settings);
    OneMoreLawful(s.log, event, settings);
  }

  /** What is remembered stays so while the stores noted do, as time passes. */
  lemma StillRemembers(s: Eviction, after: Eviction, t: Summary, then_: Summary, settings: Settings, world: World)
    requires forall content :: Remembers(s, t, content, settings, world)
    requires after.storedAt == s.storedAt && then_.stored == t.stored && after.ticks >= s.ticks && Monotone(world)
    requires Timely(s, world)
    ensures Timely(after, world) && forall content :: Remembers(after, then_, content, settings, world)
  {
    forall content ensures Remembers(after, then_, content, settings, world) {
      assert Remembers(s, t, content, settings, world);
    }
  }

  /** Reading the clock or the free space, and what the module was not told of. */
  predicate Later(s: Eviction, after: Eviction) {
    after == s.(ticks := after.ticks, looks := after.looks, candidates := after.candidates, full := after.full,
                store := after.store) && after.ticks >= s.ticks
  }

  lemma LaterFits(s: Eviction, after: Eviction, t: Summary, start: nat, settings: Settings, world: World)
    requires Fits(s, t, start, settings, world) && Monotone(world) && Later(s, after)
    ensures Fits(after, t, start, settings, world)
  {
    StillRemembers(s, after, t, t, settings, world);
  }

  lemma LaterKeeps(s: Eviction, after: Eviction, start: nat, settings: Settings, world: World)
    requires Sound(s, start, settings, world) && Monotone(world) && Later(s, after)
    ensures Sound(after, start, settings, world)
  {
    LaterFits(s, after, Summarized(s.log, settings), start, settings, world);
  }

  /** What changes nothing it was told. */
  lemma MinorKeeps(s: Eviction, event: Event, start: nat, settings: Settings, world: World)
    requires Sound(s, start, settings, world) && Monotone(world) && (event.SaidFull? || event.Acknowledged?)
    ensures Sound(Told(s, event), start, settings, world)
  {
    StillRemembers(s, Told(s, event), Summarized(s.log, settings), Summarized(s.log, settings), settings, world);
    Happens(s, Told(s, event), event, start, settings, world);
  }

  lemma TimelyMore(s: Eviction, ticks: nat, world: World)
    requires Timely(s, world) && Monotone(world) && ticks >= s.ticks
    ensures Timely(s.(ticks := ticks), world)
  {
  }

  lemma ForgetFits(s: Eviction, t: Summary, start: nat, settings: Settings, world: World)
    requires Fits(s, t, start, settings, world) && Monotone(world)
    ensures Fits(ForgetOldStores(s, settings, world), t, start, settings, world)
  {
    var after := ForgetOldStores(s, settings, world);
    var since := world.clock(s.ticks) - settings.grace;
    DroppedIsOver(s.storedAt, since, settings.nodeId);
    DroppedInOrder(s.storedAt, since);
    TimelyMore(s, s.ticks + 1, world);
    forall content ensures Remembers(after, t, content, settings, world) {
      DroppedIsOver(s.storedAt, since, content);
      assert Remembers(s, t, content, settings, world);
    }
  }

  lemma ForgetKeeps(s: Eviction, start: nat, settings: Settings, world: World)
    requires Sound(s, start, settings, world) && Monotone(world)
    ensures Sound(ForgetOldStores(s, settings, world), start, settings, world)
  {
    ForgetFits(s, Summarized(s.log, settings), start, settings, world);
  }

  lemma ReportKeeps(s: Eviction, always: bool, start: nat, settings: Settings, world: World)
    requires Sound(s, start, settings, world) && Monotone(world)
    ensures Sound(ReportFull(s, always, settings, world), start, settings, world)
  {
    var full := OverLimits(settings.limits, s.heldBytes, world.free(s.looks), settings.limits.maxObject);
    LaterKeeps(s, Looked(s, settings), start, settings, world);
    LaterKeeps(s, Looked(s, settings).(full := Some(full)), start, settings, world);
    MinorKeeps(Looked(s, settings).(full := Some(full)), SaidFull(full), start, settings, world);
  }

  lemma AskKeeps(s: Eviction, needed: nat, start: nat, settings: Settings, world: World)
    requires Sound(s, start, settings, world) && Monotone(world)
    ensures Sound(AskForCandidates(s, needed, world), start, settings, world)
  {
    if s.asking.sentAt.None? {
      var after, event := AskForCandidates(s, needed, world), CandidatesRequested(needed, Excluded(s));
      var t := Summarized(s.log, settings);
      StillRemembers(s, after, t, After(t, event, settings), settings, world);
      Happens(s, after, event, start, settings, world);
    }
  }

  lemma HandOffFits(s: Eviction, held: HeldObject, t: Summary, start: nat, settings: Settings, world: World)
    requires Fits(s, t, start, settings, world) && Monotone(world)
    requires |s.handingOff| < settings.maxHandOffs && !PassedOver(s, held.content, settings)
    requires s.reclaiming.sentAt.None? && Passed(s, s.pausedUntil, world)
    ensures Fits(HandOffOf(s, held, world), t, start, settings, world)
    ensures forall last :: MayFollow(t, last, Noticed(held.content, world.clock(s.ticks)), settings)
  {
    var after := HandOffOf(s, held, world);
    OneEachMore(s.handingOff, HandOff(held.content, held.size, world.clock(s.ticks)));
    assert Remembers(s, t, held.content, settings, world);
    StillRemembers(s, after, t, t, settings, world);
  }

  lemma HandOffKeeps(s: Eviction, held: HeldObject, start: nat, settings: Settings, world: World)
    requires Sound(s, start, settings, world) && Monotone(world)
    requires |s.handingOff| < settings.maxHandOffs && !PassedOver(s, held.content, settings)
    requires s.reclaiming.sentAt.None? && Passed(s, s.pausedUntil, world)
    ensures Sound(HandOffOf(s, held, world), start, settings, world)
  {
    HandOffFits(s, held, Summarized(s.log, settings), start, settings, world);
    Happens(s, HandOffOf(s, held, world), Noticed(held.content, world.clock(s.ticks)), start, settings, world);
  }

  lemma PoppedKeeps(s: Eviction, start: nat, settings: Settings, world: World) returns (next: Eviction)
    requires Sound(s, start, settings, world) && Monotone(world)
    requires s.reclaiming.sentAt.None? && Passed(s, s.pausedUntil, world)
    requires s.candidates != [] && |s.handingOff| < settings.maxHandOffs
    ensures var held, popped := s.candidates[0], s.(candidates := s.candidates[1..]);
            next == if PassedOver(s, held.content, settings) then popped else HandOffOf(popped, held, world)
    ensures Sound(next, start, settings, world)
    ensures next.reclaiming.sentAt.None? && Passed(next, next.pausedUntil, world) && next.candidates == s.candidates[1..]
  {
    var held, popped := s.candidates[0], s.(candidates := s.candidates[1..]);
    LaterKeeps(s, popped, start, settings, world);
    next := popped;
    if !PassedOver(s, held.content, settings) {
      HandOffKeeps(popped, held, start, settings, world);
      next := HandOffOf(popped, held, world);
    }
  }

  lemma {:induction false} StartKeeps(s: Eviction, freeing: nat, excess: nat, start: nat, settings: Settings, world: World)
    requires Sound(s, start, settings, world) && Monotone(world)
    requires s.reclaiming.sentAt.None? && Passed(s, s.pausedUntil, world)
    ensures Sound(StartHandOffs(s, freeing, excess, settings, world), start, settings, world)
    decreases |s.candidates|
  {
    if freeing < excess && |s.handingOff| < settings.maxHandOffs {
      if s.candidates == [] {
        AskKeeps(s, excess - freeing, start, settings, world);
      } else {
        var held := s.candidates[0];
        var next := PoppedKeeps(s, start, settings, world);
        if PassedOver(s, held.content, settings) {
          StartKeeps(next, freeing, excess, start, settings, world);
        } else {
          StartKeeps(next, freeing + held.size, excess, start, settings, world);
        }
      }
    }
  }

  lemma ReclaimsKeeps(s: Eviction, start: nat, settings: Settings, world: World)
    requires Sound(s, start, settings, world) && Monotone(world) && s.reclaiming.sentAt.None?
    ensures Sound(Reclaims(s, settings, world).0, start, settings, world)
    ensures var (after, reclaims) := Reclaims(s, settings, world);
            && after.pausedUntil == s.pausedUntil && after.ticks >= s.ticks
            && (!reclaims ==> after.reclaiming.sentAt.None?)
  {
    var (after, reclaims) := Reclaims(s, settings, world);
    if reclaims {
      var t := Summarized(s.log, settings);
      StillRemembers(s, after, t, After(t, ReclaimRequested, settings), settings, world);
      Happens(s, after, ReclaimRequested, start, settings, world);
    } else {
      LaterKeeps(s, after, start, settings, world);
    }
  }

  lemma LetGoKeeps(s: Eviction, excess: nat, start: nat, settings: Settings, world: World)
    requires Sound(s, start, settings, world) && Monotone(world)
    requires s.reclaiming.sentAt.None? && Passed(s, s.pausedUntil, world)
    ensures Sound(LetGo(s, excess, settings, world), start, settings, world)
  {
    ReclaimsKeeps(s, start, settings, world);
    var (asked, reclaims) := Reclaims(s, settings, world);
    if !reclaims {
      ForgetKeeps(asked, start, settings, world);
      StartKeeps(ForgetOldStores(asked, settings, world), Freeing(s.handingOff), excess, start, settings, world);
    }
  }

  lemma EvictKeeps(s: Eviction, start: nat, settings: Settings, world: World)
    requires Sound(s, start, settings, world) && Monotone(world)
    ensures Sound(Evict(s, settings, world), start, settings, world)
  {
    var ticked := ReportedTick(s, start, settings, world);
    EvictIs(s, settings, world);
    if Evict(s, settings, world) != ticked {
      var looked := Looked(ticked, settings);
      LaterKeeps(ticked, looked, start, settings, world);
      if Evict(s, settings, world) == looked.(candidates := []) {
        LaterKeeps(looked, looked.(candidates := []), start, settings, world);
      } else {
        LetGoKeeps(looked, Excess(settings.limits, s.heldBytes, world.free(ticked.looks)), start, settings, world);
      }
    }
  }

  lemma ReportedTick(s: Eviction, start: nat, settings: Settings, world: World) returns (ticked: Eviction)
    requires Sound(s, start, settings, world) && Monotone(world)
    ensures var reported := ReportFull(s, false, settings, world); ticked == reported.(ticks := reported.ticks + 1)
    ensures Sound(ticked, start, settings, world)
  {
    var reported := ReportFull(s, false, settings, world);
    ReportKeeps(s, false, start, settings, world);
    ticked := reported.(ticks := reported.ticks + 1);
    LaterKeeps(reported, ticked, start, settings, world);
  }

  /** Evicting reads the clock and no more, or measures the excess and lets go of it, if there is any. */
  lemma EvictIs(s: Eviction, settings: Settings, world: World)
    ensures var reported := ReportFull(s, false, settings, world);
            var ticked := reported.(ticks := reported.ticks + 1);
            var looked, after := Looked(ticked, settings), Evict(s, settings, world);
            && ticked.heldBytes == s.heldBytes
            && (after == ticked || after == looked.(candidates := []) ||
                (after == LetGo(looked, Excess(settings.limits, s.heldBytes, world.free(ticked.looks)), settings, world) &&
                 looked.reclaiming.sentAt.None? && Passed(looked, looked.pausedUntil, world)))
  {
  }

  // ---- Each message -------------------------------------------------------

  lemma DeleteKeeps(s: Eviction, content: ContentId, cause: Cause, start: nat, settings: Settings, world: World)
    requires Sound(s, start, settings, world) && Monotone(world)
    requires forall size :: MayFollow(Summarized(s.log, settings), LastOf(s.log), Deleted(content, size, cause), settings)
    ensures Sound(Delete(s, content, cause), start, settings, world)
  {
    if content in s.store {
      var after, event := Delete(s, content, cause), Deleted(content, s.store[content], cause);
      var t := Summarized(s.log, settings);
      StillRemembers(s, after, t, After(t, event, settings), settings, world);
      Happens(s, after, event, start, settings, world);
    }
  }

  /** A hand-off over, or given up on. */
  lemma FewerKeeps(s: Eviction, hands: seq<HandOff>, start: nat, settings: Settings, world: World)
    requires Sound(s, start, settings, world) && Monotone(world) && OneEach(hands) && |hands| <= |s.handingOff|
    ensures Sound(s.(handingOff := hands), start, settings, world)
  {
    StillRemembers(s, s.(handingOff := hands), Summarized(s.log, settings), Summarized(s.log, settings), settings, world);
  }

  lemma PauseKeeps(s: Eviction, until: Time, start: nat, settings: Settings, world: World)
    requires Sound(s, start, settings, world) && Monotone(world)
    ensures Sound(PausedFor(s, until), start, settings, world)
  {
    var after, t := PausedFor(s, until), Summarized(s.log, settings);
    StillRemembers(s, after, t, After(t, Paused(until), settings), settings, world);
    Happens(s, after, Paused(until), start, settings, world);
  }

  lemma {:induction false} EachOnceMore(entries: seq<Entry>, entry: Entry, other: ContentId)
    requires EachOnce(entries) && At(entries, entry.key).None?
    ensures EachOnce(entries + [entry])
    ensures At(entries + [entry], other) == if other == entry.key then Some(entry.at) else At(entries, other)
  {
    if entries != [] {
      assert (entries + [entry])[1..] == entries[1..] + [entry];
      EachOnceMore(entries[1..], entry, other);
      EachOnceMore(entries[1..], entry, entries[0].key);
    }
  }

  lemma NotingFits(s: Eviction, content: ContentId, size: nat, t: Summary, start: nat, settings: Settings, world: World)
    requires Fits(s, t, start, settings, world) && Monotone(world)
    ensures Fits(Noting(s, content, size, world), After(t, Stored(content, size, world.clock(s.ticks)), settings), start, settings,
                 world)
  {
    var now := world.clock(s.ticks);
    var entries, noted := Without(s.storedAt, content), Noting(s, content, size, world);
    WithoutIsNotAt(s.storedAt, content, content);
    WithoutInOrder(s.storedAt, content);
    TimelyMore(s, s.ticks + 1, world);
    EachOnceMore(entries, Entry(content, now), content);
    forall other ensures Remembers(noted, After(t, Stored(content, size, now), settings), other, settings, world) {
      WithoutIsNotAt(s.storedAt, content, other);
      EachOnceMore(entries, Entry(content, now), other);
      assert Remembers(s, t, other, settings, world);
    }
  }

  lemma StoredKeeps(s: Eviction, content: ContentId, size: nat, start: nat, settings: Settings, world: World)
    requires Sound(s, start, settings, world) && Monotone(world)
    ensures Sound(OnDataStored(s, content, size, settings, world), start, settings, world)
  {
    ForgetKeeps(s, start, settings, world);
    var forgot := ForgetOldStores(s, settings, world);
    var noted := Noting(forgot, content, size, world);
    NotingFits(forgot, content, size, Summarized(forgot.log, settings), start, settings, world);
    Happens(forgot, noted, Stored(content, size, world.clock(forgot.ticks)), start, settings, world);
    EvictKeeps(noted, start, settings, world);
  }

  lemma RetryKeeps(s: Eviction, start: nat, settings: Settings, world: World)
    requires Sound(s, start, settings, world) && Monotone(world)
    ensures Sound(RetryLater(s, settings, world), start, settings, world)
  {
    var ticked := s.(ticks := s.ticks + 1);
    LaterKeeps(s, ticked, start, settings, world);
    PauseKeeps(ticked, world.clock(s.ticks) + settings.retryDelay, start, settings, world);
  }

  /** Content handed off is deleted only if it is no key needed, and out of its grace. */
  lemma LetGoOfKeeps(s: Eviction, content: ContentId, holders: nat, start: nat, settings: Settings, world: World)
    requires Sound(s, start, settings, world) && Monotone(world)
    requires LastOf(s.log) == Some(Acknowledged(content, holders)) && holders >= 1
    ensures Sound(LetGoOf(s, content, settings, world), start, settings, world)
  {
    ForgetKeeps(s, start, settings, world);
    var forgot := ForgetOldStores(s, settings, world);
    if !IsKept(forgot, content, settings) && At(forgot.storedAt, content).None? {
      assert Remembers(forgot, Summarized(forgot.log, settings), content, settings, world);
      DeleteKeeps(forgot, content, HandedOff(world.clock(s.ticks)), start, settings, world);
    }
  }

  lemma HeardKeeps(s: Eviction, content: ContentId, holders: nat, start: nat, settings: Settings, world: World)
    requires Sound(s, start, settings, world) && Monotone(world)
    ensures Sound(Told(s.(handingOff := WithoutHandOff(s.handingOff, content)), Acknowledged(content, holders)), start,
                  settings, world)
  {
    OneEachWithout(s.handingOff, content, content);
    var fewer := s.(handingOff := WithoutHandOff(s.handingOff, content));
    FewerKeeps(s, fewer.handingOff, start, settings, world);
    MinorKeeps(fewer, Acknowledged(content, holders), start, settings, world);
  }

  lemma AcknowledgedKeeps(s: Eviction, content: ContentId, nodes: set<ContentId>, start: nat, settings: Settings, world: World)
    requires Sound(s, start, settings, world) && Monotone(world)
    ensures Sound(OnAcknowledged(s, content, nodes, settings, world), start, settings, world)
  {
    var heard := Told(s.(handingOff := WithoutHandOff(s.handingOff, content)), Acknowledged(content, |nodes|));
    HeardKeeps(s, content, |nodes|, start, settings, world);
    if |nodes| < HAND_OFF_COPIES {
      RetryKeeps(heard, start, settings, world);
    } else {
      LetGoOfKeeps(heard, content, |nodes|, start, settings, world);
      EvictKeeps(LetGoOf(heard, content, settings, world), start, settings, world);
    }
  }

  lemma WaitsKeeps(s: Eviction, start: nat, settings: Settings, world: World)
    requires Sound(s, start, settings, world) && Monotone(world)
    ensures Sound(Waits(s, settings, world), start, settings, world)
  {
    var looked := Looked(s, settings);
    LookedKeeps(s, start, settings, world);
    if Excess(settings.limits, s.heldBytes, world.free(s.looks)) != 0 {
      ForgetKeeps(looked, start, settings, world);
      PausesKeeps(ForgetOldStores(looked, settings, world), start, settings, world);
    }
  }

  lemma PausesKeeps(s: Eviction, start: nat, settings: Settings, world: World)
    requires Sound(s, start, settings, world) && Monotone(world)
    ensures Sound(WaitsFor(s, settings, world), start, settings, world)
  {
    if s.storedAt != [] {
      PauseKeeps(s, s.storedAt[0].at + settings.grace, start, settings, world);
    } else {
      LookedRetryKeeps(s, start, settings, world);
    }
  }

  lemma LookedRetryKeeps(s: Eviction, start: nat, settings: Settings, world: World)
    requires Sound(s, start, settings, world) && Monotone(world)
    ensures Sound(Looked(RetryLater(s, settings, world), settings), start, settings, world)
  {
    RetryKeeps(s, start, settings, world);
    LookedKeeps(RetryLater(s, settings, world), start, settings, world);
  }

  lemma LookedKeeps(s: Eviction, start: nat, settings: Settings, world: World)
    requires Sound(s, start, settings, world) && Monotone(world)
    ensures Sound(Looked(s, settings), start, settings, world)
  {
    LaterKeeps(s, Looked(s, settings), start, settings, world);
  }

  /** An answer from stats, or giving up on one. */
  lemma AskedKeeps(s: Eviction, event: Event, start: nat, settings: Settings, world: World)
    requires Sound(s, start, settings, world) && Monotone(world) && (event.CandidatesListed? || event.GaveUpAsking?)
    ensures Sound(Told(s.(asking := Answered(s.asking)), event), start, settings, world)
  {
    var after, t := Told(s.(asking := Answered(s.asking)), event), Summarized(s.log, settings);
    StillRemembers(s, after, t, After(t, event, settings), settings, world);
    Happens(s, after, event, start, settings, world);
  }

  /** An answer from the unbundler, or giving up on one. */
  lemma ReclaimedKeeps(s: Eviction, event: Event, start: nat, settings: Settings, world: World)
    requires Sound(s, start, settings, world) && Monotone(world) && (event.Reclaimed? || event.GaveUpReclaiming?)
    ensures Sound(Told(s.(reclaiming := Answered(s.reclaiming)), event), start, settings, world)
  {
    var after, t := Told(s.(reclaiming := Answered(s.reclaiming)), event), Summarized(s.log, settings);
    StillRemembers(s, after, t, After(t, event, settings), settings, world);
    Happens(s, after, event, start, settings, world);
  }

  lemma CandidatesKeeps(s: Eviction, objects: seq<HeldObject>, start: nat, settings: Settings, world: World)
    requires Sound(s, start, settings, world) && Monotone(world)
    ensures Sound(OnCandidates(s, objects, settings, world), start, settings, world)
  {
    var answered := Told(s.(asking := Answered(s.asking)), CandidatesListed);
    AskedKeeps(s, CandidatesListed, start, settings, world);
    var listed := answered.(candidates := objects);
    LaterKeeps(answered, listed, start, settings, world);
    if objects != [] {
      EvictKeeps(listed, start, settings, world);
    } else if s.handingOff == [] {
      WaitsKeeps(listed, start, settings, world);
    }
  }

  /** Content shunned is no longer remembered as stored, unless it is a key needed. */
  lemma ShunnedFits(s: Eviction, content: ContentId, t: Summary, start: nat, settings: Settings, world: World)
    requires Fits(s, t, start, settings, world)
    ensures IsKept(s, content, settings) ==>
              Fits(Told(s, Shunned(content)), After(t, Shunned(content), settings), start, settings, world)
    ensures !IsKept(s, content, settings) ==>
              Fits(Told(s.(storedAt := Without(s.storedAt, content)), Shunned(content)),
                   After(t, Shunned(content), settings), start, settings, world)
  {
    WithoutIsNotAt(s.storedAt, content, content);
    WithoutInOrder(s.storedAt, content);
    forall other
      ensures IsKept(s, content, settings) ==>
                Remembers(Told(s, Shunned(content)), After(t, Shunned(content), settings), other, settings, world)
      ensures !IsKept(s, content, settings) ==>
                Remembers(Told(s.(storedAt := Without(s.storedAt, content)), Shunned(content)),
                          After(t, Shunned(content), settings), other, settings, world)
    {
      WithoutIsNotAt(s.storedAt, content, other);
      assert Remembers(s, t, other, settings, world);
    }
  }

  lemma ShunnedKeeps(s: Eviction, content: ContentId, start: nat, settings: Settings, world: World)
    requires Sound(s, start, settings, world) && Monotone(world)
    ensures Sound(OnDataShunned(s, content, settings, world), start, settings, world)
  {
    ShunnedFits(s, content, Summarized(s.log, settings), start, settings, world);
    if IsKept(s, content, settings) {
      Happens(s, Told(s, Shunned(content)), Shunned(content), start, settings, world);
    } else {
      var dropped := Told(s.(storedAt := Without(s.storedAt, content)), Shunned(content));
      Happens(s, dropped, Shunned(content), start, settings, world);
      var listing := dropped.(candidates := Listing(s.candidates, content));
      LaterKeeps(dropped, listing, start, settings, world);
      SummarizedMore(s.log, Shunned(content), settings);
      if content in s.store {
        DeleteKeeps(listing, content, IsShunned, start, settings, world);
        EvictKeeps(Delete(listing, content, IsShunned), start, settings, world);
      }
    }
  }

  lemma ConnectedKeeps(s: Eviction, direction: Direction, nodes: set<ContentId>, start: nat, settings: Settings, world: World)
    requires Sound(s, start, settings, world) && Monotone(world)
    ensures Sound(OnPeersConnected(s, direction, nodes), start, settings, world)
  {
    var after, t := OnPeersConnected(s, direction, nodes), Summarized(s.log, settings);
    StillRemembers(s, after, t, After(t, Named(direction, nodes), settings), settings, world);
    Happens(s, after, Named(direction, nodes), start, settings, world);
  }

  lemma GiveUpsKeeps(s: Eviction, now: Time, start: nat, settings: Settings, world: World)
    requires Sound(s, start, settings, world) && Monotone(world)
    ensures Sound(GiveUps(s, now, settings), start, settings, world)
  {
    var first := s;
    if TimedOut(s.asking, now, settings.candidatesTimeout) {
      first := Told(s.(asking := Answered(s.asking)), GaveUpAsking);
      AskedKeeps(s, GaveUpAsking, start, settings, world);
    }
    if TimedOut(s.reclaiming, now, settings.reclaimTimeout) {
      ReclaimedKeeps(first, GaveUpReclaiming, start, settings, world);
    }
  }

  lemma GivesUpKeeps(s: Eviction, now: Time, start: nat, settings: Settings, world: World)
    requires Sound(s, start, settings, world) && Monotone(world) && Passed(s, now, world)
    ensures Sound(GivesUp(s, now, settings), start, settings, world)
  {
    OneEachInTime(s.handingOff, now, settings.handOffTimeout, settings.nodeId);
    var left := InTime(s.handingOff, now, settings.handOffTimeout);
    FewerKeeps(s, left, start, settings, world);
    GiveUpsKeeps(s.(handingOff := left), now, start, settings, world);
    ResumeKeeps(GiveUps(s.(handingOff := left), now, settings), GivesUp(s, now, settings), start, settings, world);
  }

  /** A pause that is over is forgotten. */
  lemma ResumeKeeps(s: Eviction, after: Eviction, start: nat, settings: Settings, world: World)
    requires Sound(s, start, settings, world) && Monotone(world)
    requires after == s || (Passed(s, s.pausedUntil, world) && after == s.(pausedUntil := 0.0))
    ensures Sound(after, start, settings, world)
  {
    StillRemembers(s, after, Summarized(s.log, settings), Summarized(s.log, settings), settings, world);
  }

  lemma IdleKeeps(s: Eviction, start: nat, settings: Settings, world: World)
    requires Sound(s, start, settings, world) && Monotone(world)
    ensures Sound(OnIdle(s, settings, world), start, settings, world)
  {
    ReportKeeps(s, false, start, settings, world);
    var reported := ReportFull(s, false, settings, world);
    var ticked := reported.(ticks := reported.ticks + 1);
    LaterKeeps(reported, ticked, start, settings, world);
    GivesUpKeeps(ticked, world.clock(reported.ticks), start, settings, world);
    EvictKeeps(GivesUp(ticked, world.clock(reported.ticks), settings), start, settings, world);
  }

  // ---- Every run ----------------------------------------------------------

  lemma ReclaimKeeps(s: Eviction, start: nat, settings: Settings, world: World)
    requires Sound(s, start, settings, world) && Monotone(world)
    ensures Sound(OnReclaimed(s, settings, world), start, settings, world)
  {
    ReclaimedKeeps(s, Reclaimed, start, settings, world);
    EvictKeeps(Told(s.(reclaiming := Answered(s.reclaiming)), Reclaimed), start, settings, world);
  }

  /** A message that content, or the peers, are told of in. */
  predicate OfContent(action: Action) {
    action.Store? || action.Acknowledge? || action.Shun? || action.Name?
  }

  lemma ContentActionKeeps(s: Eviction, action: Action, start: nat, settings: Settings, world: World)
    requires Sound(s, start, settings, world) && Monotone(world) && OfContent(action)
    ensures Sound(Take(s, action, settings, world), start, settings, world)
  {
    match action {
      case Store(content, size) => StoredKeeps(s, content, size, start, settings, world);
      case Acknowledge(content, nodes) => AcknowledgedKeeps(s, content, nodes, start, settings, world);
      case Shun(content) => ShunnedKeeps(s, content, start, settings, world);
      case Name(direction, nodes) => ConnectedKeeps(s, direction, nodes, start, settings, world);
    }
  }

  lemma ActionKeeps(s: Eviction, action: Action, start: nat, settings: Settings, world: World)
    requires Sound(s, start, settings, world) && Monotone(world) && !OfContent(action)
    ensures Sound(Take(s, action, settings, world), start, settings, world)
  {
    match action {
      case List(objects) => CandidatesKeeps(s, objects, start, settings, world);
      case Reclaim => ReclaimKeeps(s, start, settings, world);
      case AskFull => ReportKeeps(s, true, start, settings, world);
      case Idle => IdleKeeps(s, start, settings, world);
      case Elsewhere(store) => LaterKeeps(s, s.(store := store), start, settings, world);
    }
  }

  lemma {:induction false} RunKeeps(s: Eviction, actions: seq<Action>, start: nat, settings: Settings, world: World)
    requires Sound(s, start, settings, world) && Monotone(world)
    ensures Sound(Run(s, actions, settings, world), start, settings, world)
    decreases |actions|
  {
    if actions != [] {
      if OfContent(actions[0]) {
        ContentActionKeeps(s, actions[0], start, settings, world);
      } else {
        ActionKeeps(s, actions[0], start, settings, world);
      }
      RunKeeps(Take(s, actions[0], settings, world), actions[1..], start, settings, world);
    }
  }

  /**
   In every run: content is deleted only on an acknowledgement naming a holder, past the
   grace of its last store, or a shunning; never this node's key nor a connected peer's.
   A hand-off starts only for content that may go, with no reclaim pending and no pause on.
   At most so many are under way, each of other content. No request is sent while one is
   pending, and the bytes counted held are never fewer than the messages tell of.
   */
  lemma EveryRunLetsGoSafely(heldBytes: nat, store: map<ContentId, nat>, actions: seq<Action>,
                             settings: Settings, world: World)
    requires Monotone(world)
    ensures var s := Run(OnStart(Begun(heldBytes, store), settings, world), actions, settings, world);
            && Lawful(s.log, settings)
            && |s.handingOff| <= settings.maxHandOffs && OneEach(s.handingOff)
            && s.heldBytes >= heldBytes + Summarized(s.log, settings).net
  {
    EveryRunIsSound(heldBytes, store, actions, settings, world);
  }

  lemma EveryRunIsSound(heldBytes: nat, store: map<ContentId, nat>, actions: seq<Action>, settings: Settings, world: World)
    requires Monotone(world)
    ensures Sound(Run(OnStart(Begun(heldBytes, store), settings, world), actions, settings, world), heldBytes, settings,
                  world)
  {
    var begun := Begun(heldBytes, store);
    assert Sound(begun, heldBytes, settings, world);
    ReportKeeps(begun, true, heldBytes, settings, world);
    EvictKeeps(ReportFull(begun, true, settings, world), heldBytes, settings, world);
    RunKeeps(OnStart(begun, settings, world), actions, heldBytes, settings, world);
  }

  // ---- As many hand-offs as are needed ------------------------------------

  /** Each hand-off from the `from`-th on started while those before it freed less than `excess`. */
  predicate EachNeeded(hands: seq<HandOff>, from: nat, excess: nat) {
    forall k :: from <= k < |hands| ==> Freeing(hands[..k]) < excess
  }

  lemma OneMoreNeeded(hands: seq<HandOff>, hand: HandOff, from: nat, excess: nat)
    requires EachNeeded(hands, from, excess) && Freeing(hands) < excess
    ensures EachNeeded(hands + [hand], from, excess) && Freeing(hands + [hand]) == Freeing(hands) + hand.size
  {
    var more := hands + [hand];
    assert more[..|hands|] == hands;
    forall k | from <= k < |more| ensures Freeing(more[..k]) < excess {
      if k < |hands| {
        assert more[..k] == hands[..k];
      }
    }
  }

  lemma StartStep(s: Eviction, freeing: nat, excess: nat, settings: Settings, world: World)
    requires freeing < excess && |s.handingOff| < settings.maxHandOffs && s.candidates != []
    ensures var held, popped := s.candidates[0], s.(candidates := s.candidates[1..]);
            StartHandOffs(s, freeing, excess, settings, world) ==
            if PassedOver(s, held.content, settings) then StartHandOffs(popped, freeing, excess, settings, world)
            else StartHandOffs(HandOffOf(popped, held, world), freeing + held.size, excess, settings, world)
  {
  }

  /** Starting takes no hand-off away, starts none not needed, and stops only with enough or none to start. */
  lemma {:induction false} StartsWhatIsNeeded(s: Eviction, excess: nat, from: nat, settings: Settings, world: World)
    requires from <= |s.handingOff| && EachNeeded(s.handingOff, from, excess)
    ensures var after := StartHandOffs(s, Freeing(s.handingOff), excess, settings, world);
            && s.handingOff <= after.handingOff && EachNeeded(after.handingOff, from, excess)
            && (|after.handingOff| < settings.maxHandOffs && Freeing(after.handingOff) < excess ==>
                  after.candidates == [] && after.asking.sentAt.Some?)
    decreases |s.candidates|
  {
    if Freeing(s.handingOff) < excess && |s.handingOff| < settings.maxHandOffs && s.candidates != [] {
      var held, popped := s.candidates[0], s.(candidates := s.candidates[1..]);
      StartStep(s, Freeing(s.handingOff), excess, settings, world);
      if PassedOver(s, held.content, settings) {
        StartsWhatIsNeeded(popped, excess, from, settings, world);
      } else {
        OneMoreNeeded(s.handingOff, HandOff(held.content, held.size, world.clock(s.ticks)), from, excess);
        StartsWhatIsNeeded(HandOffOf(popped, held, world), excess, from, settings, world);
      }
    }
  }

  lemma LetGoStartsWhatIsNeeded(s: Eviction, excess: nat, settings: Settings, world: World)
    ensures var after := LetGo(s, excess, settings, world);
            s.handingOff <= after.handingOff && EachNeeded(after.handingOff, |s.handingOff|, excess)
  {
    var (asked, reclaims) := Reclaims(s, settings, world);
    if !reclaims {
      var forgot := ForgetOldStores(asked, settings, world);
      assert forgot.handingOff == s.handingOff;
      StartsWhatIsNeeded(forgot, excess, |s.handingOff|, settings, world);
    }
  }

  /**
   Those under way stay, and each hand-off more started while they freed less than the
   excess: that of the free space read next once it has been said whether storage is full.
   */
  predicate StartsNeeded(s: Eviction, after: Eviction, settings: Settings, world: World) {
    && s.handingOff <= after.handingOff
    && var look := ReportFull(s, false, settings, world).looks;
       EachNeeded(after.handingOff, |s.handingOff|, Excess(settings.limits, s.heldBytes, world.free(look)))
  }

  /** A hand-off starts only while the bytes already under way fall short of the excess then measured. */
  lemma EvictStartsWhatIsNeeded(s: Eviction, settings: Settings, world: World)
    ensures StartsNeeded(s, Evict(s, settings, world), settings, world)
  {
    var reported := ReportFull(s, false, settings, world);
    var ticked := reported.(ticks := reported.ticks + 1);
    var excess := Excess(settings.limits, s.heldBytes, world.free(ticked.looks));
    var looked := Looked(ticked, settings);
    assert looked.handingOff == s.handingOff;
    LetGoStartsWhatIsNeeded(looked, excess, settings, world);
    assert EachNeeded(s.handingOff, |s.handingOff|, excess);
    EvictIsOneOf(s, settings, world);
    assert EachNeeded(Evict(s, settings, world).handingOff, |s.handingOff|, excess);
  }

  lemma EvictIsOneOf(s: Eviction, settings: Settings, world: World)
    ensures var reported := ReportFull(s, false, settings, world);
            var ticked := reported.(ticks := reported.ticks + 1);
            var excess := Excess(settings.limits, s.heldBytes, world.free(ticked.looks));
            Evict(s, settings, world).handingOff == s.handingOff ||
            Evict(s, settings, world) == LetGo(Looked(ticked, settings), excess, settings, world)
  {
  }

  // ---- Where shunning forgets the grace -----------------------------------

  /** When `content` was last stored, shunned since or not. */
  function EverStored(log: seq<Event>, content: ContentId): Option<Time> {
    if log == [] then None
    else
      var last := log[|log| - 1];
      if last.Stored? && last.content == content then Some(last.at) else EverStored(log[..|log| - 1], content)
  }

  function NoLimits(node: ContentId): Settings {
    Settings(node, Limits(0, None, 0, 1), 60.0, 8, 1200.0, 30.0, 30.0, 30.0, 3600.0)
  }

  function Still(at: Time): World {
    World(_ => at, _ => 0)
  }

  /**
   Shunning content the node has no copy of forgets when it was stored. Should a copy come
   to it before that is told, an acknowledgement then deletes it within its grace.
   */
  lemma ShunningForgetsGrace(node: ContentId, content: ContentId, holder: ContentId)
    requires content != node
    ensures var settings, world := NoLimits(node), Still(10.0);
            var stored := Take(Begun(0, map[]), Store(content, 1), settings, world);
            var shunned := Take(stored, Shun(content), settings, world);
            var copied := Take(shunned, Elsewhere(map[content := 1]), settings, world);
            var after := Take(copied, Acknowledge(content, {holder}), settings, world);
            && Deleted(content, 1, HandedOff(10.0)) in after.log
            && EverStored(after.log, content) == Some(10.0) && settings.grace == 30.0
  {
    var settings, world := NoLimits(node), Still(10.0);
    var stored := Take(Begun(0, map[]), Store(content, 1), settings, world);
    assert stored.log == [Stored(content, 1, 10.0), SaidFull(false)];
    assert stored.storedAt == [Entry(content, 10.0)] && stored.store == map[];
    var shunned := Take(stored, Shun(content), settings, world);
    assert shunned.log == [Stored(content, 1, 10.0), SaidFull(false), Shunned(content)] && shunned.storedAt == [];
    var copied := Take(shunned, Elsewhere(map[content := 1]), settings, world);
    var after := TakenWithinGrace(copied, content, holder, settings, world);
    EverStoredFirst(content, after.log);
    assert after.log[4] == Deleted(content, 1, HandedOff(10.0));
  }

  lemma TakenWithinGrace(s: Eviction, content: ContentId, holder: ContentId, settings: Settings, world: World)
    returns (after: Eviction)
    requires world == Still(10.0) && settings == NoLimits(settings.nodeId) && !IsKept(s, content, settings)
    requires s.storedAt == [] && s.store == map[content := 1] && s.heldBytes <= 1 && s.full == Some(false)
    ensures after == Take(s, Acknowledge(content, {holder}), settings, world)
    ensures after.log == s.log + [Acknowledged(content, 1), Deleted(content, 1, HandedOff(10.0))]
  {
    after := Take(s, Acknowledge(content, {holder}), settings, world);
    assert |{holder}| == 1;
  }

  lemma {:induction false} EverStoredFirst(content: ContentId, log: seq<Event>)
    requires log != [] && log[0].Stored? && log[0].content == content
    requires forall j :: 0 < j < |log| ==> !log[j].Stored?
    ensures EverStored(log, content) == Some(log[0].at)
    decreases |log|
  {
    if |log| > 1 {
      EverStoredFirst(content, log[..|log| - 1]);
    }
  }

  predicate IsStoreOf(event: Event, content: ContentId) {
    event.Stored? && event.content == content
  }

  /** Whether the `j`-th event shunned `content`, no key needed then, and it was not stored since. */
  predicate ForgetsAt(log: seq<Event>, j: nat, content: ContentId, settings: Settings)
    requires j < |log|
  {
    && log[j] == Shunned(content) && !IsNeeded(Summarized(log[..j], settings), content, settings)
    && forall k :: j < k < |log| ==> !IsStoreOf(log[k], content)
  }

  /** Whether `content` was shunned, while it was no key needed, since it was last stored. */
  predicate Forgotten(log: seq<Event>, content: ContentId, settings: Settings) {
    exists j :: 0 <= j < |log| && ForgetsAt(log, j, content, settings)
  }

  lemma ForgottenMore(log: seq<Event>, event: Event, content: ContentId, settings: Settings)
    ensures Forgotten(log + [event], content, settings) <==>
            || (Forgotten(log, content, settings) && !IsStoreOf(event, content))
            || (event == Shunned(content) && !IsNeeded(Summarized(log, settings), content, settings))
  {
    var more := log + [event];
    assert more[..|log|] == log;
    if Forgotten(more, content, settings) {
      var j :| 0 <= j < |more| && ForgetsAt(more, j, content, settings);
      if j < |log| {
        assert more[..j] == log[..j];
        assert more[|log|] == event;
        assert ForgetsAt(log, j, content, settings);
      }
    }
    if Forgotten(log, content, settings) && !IsStoreOf(event, content) {
      var j :| 0 <= j < |log| && ForgetsAt(log, j, content, settings);
      assert more[..j] == log[..j];
      assert ForgetsAt(more, j, content, settings);
    }
    if event == Shunned(content) && !IsNeeded(Summarized(log, settings), content, settings) {
      assert ForgetsAt(more, |log|, content, settings);
    }
  }

  /** When content was last stored is forgotten if and only if it was shunned since, while it was no key needed. */
  lemma {:induction false} GraceHoldsUnlessShunned(log: seq<Event>, content: ContentId, settings: Settings)
    ensures var stored := Summarized(log, settings).stored;
            && (content !in stored <==> EverStored(log, content).None? || Forgotten(log, content, settings))
            && (content in stored ==> EverStored(log, content) == Some(stored[content]))
    decreases |log|
  {
    if log != [] {
      var rest, event := log[..|log| - 1], log[|log| - 1];
      GraceHoldsUnlessShunned(rest, content, settings);
      ForgottenMore(rest, event, content, settings);
      assert log == rest + [event];
    }
  }

  /** Whether the last store of `content` is no reason to keep it: it is past its grace, or forgotten. */
  predicate MayGo(log: seq<Event>, content: ContentId, settings: Settings, now: Time) {
    var stored := EverStored(log, content);
    stored.None? || stored.value + settings.grace <= now || Forgotten(log, content, settings)
  }

  /**
   In every run, content is deleted on an acknowledgement only past the grace of its last
   store, unless it was shunned since, while it was no key needed.
   */
  lemma EveryDeletionIsPastGrace(heldBytes: nat, store: map<ContentId, nat>, actions: seq<Action>,
                                 settings: Settings, world: World, j: nat)
    requires Monotone(world)
    requires var log := Run(OnStart(Begun(heldBytes, store), settings, world), actions, settings, world).log;
             j < |log| && log[j].Deleted? && log[j].cause.HandedOff?
    ensures var log := Run(OnStart(Begun(heldBytes, store), settings, world), actions, settings, world).log;
            MayGo(log[..j], log[j].content, settings, log[j].cause.at)
  {
    var log := Run(OnStart(Begun(heldBytes, store), settings, world), actions, settings, world).log;
    EveryRunLetsGoSafely(heldBytes, store, actions, settings, world);
    assert LawfulAt(log, j, settings);
    GraceHoldsUnlessShunned(log[..j], log[j].content, settings);
  }

  lemma {:induction false} StartKeepsStore(s: Eviction, freeing: nat, excess: nat, settings: Settings, world: World)
    ensures StartHandOffs(s, freeing, excess, settings, world).store == s.store
    decreases |s.candidates|
  {
    if freeing < excess && |s.handingOff| < settings.maxHandOffs && s.candidates != [] {
      var held, popped := s.candidates[0], s.(candidates := s.candidates[1..]);
      if PassedOver(s, held.content, settings) {
        StartKeepsStore(popped, freeing, excess, settings, world);
      } else {
        StartKeepsStore(HandOffOf(popped, held, world), freeing + held.size, excess, settings, world);
      }
    }
  }

  lemma LetGoKeepsStore(s: Eviction, excess: nat, settings: Settings, world: World)
    ensures LetGo(s, excess, settings, world).store == s.store
  {
    var (asked, reclaims) := Reclaims(s, settings, world);
    StartKeepsStore(ForgetOldStores(asked, settings, world), Freeing(s.handingOff), excess, settings, world);
  }

  lemma EvictKeepsStore(s: Eviction, settings: Settings, world: World)
    ensures Evict(s, settings, world).store == s.store
  {
    var reported := ReportFull(s, false, settings, world);
    var ticked := reported.(ticks := reported.ticks + 1);
    EvictIs(s, settings, world);
    LetGoKeepsStore(Looked(ticked, settings), Excess(settings.limits, s.heldBytes, world.free(ticked.looks)), settings, world);
  }

  /** What is still noted as stored once what is over is forgotten: what was stored within its grace. */
  lemma NotedWithinGrace(s: Eviction, content: ContentId, start: nat, settings: Settings, world: World)
    requires Sound(s, start, settings, world) && Monotone(world)
    ensures At(ForgetOldStores(s, settings, world).storedAt, content).None? <==>
            MayGo(s.log, content, settings, world.clock(s.ticks))
  {
    var forgot := ForgetOldStores(s, settings, world);
    var t, since := Summarized(s.log, settings), world.clock(s.ticks) - settings.grace;
    ForgetFits(s, t, start, settings, world);
    GraceHoldsUnlessShunned(s.log, content, settings);
    assert Remembers(forgot, t, content, settings, world);
    DroppedInOrder(s.storedAt, since);
    if At(forgot.storedAt, content).Some? {
      var i := AtIsOne(forgot.storedAt, content);
      assert forgot.storedAt[i].at > since;
    }
  }

  /**
   In every run, an acknowledgement naming a holder deletes content held that is no key
   needed if and only if it is past the grace of its last store, or was shunned since, while
   it was no key needed.
   */
  lemma AcknowledgedExactly(heldBytes: nat, store: map<ContentId, nat>, actions: seq<Action>, settings: Settings,
                            world: World, content: ContentId, nodes: set<ContentId>)
    requires Monotone(world) && nodes != {}
    requires var s := Run(OnStart(Begun(heldBytes, store), settings, world), actions, settings, world);
             content in s.store && !IsKept(s, content, settings)
    ensures var s := Run(OnStart(Begun(heldBytes, store), settings, world), actions, settings, world);
            content !in Take(s, Acknowledge(content, nodes), settings, world).store <==>
            MayGo(s.log, content, settings, world.clock(s.ticks))
  {
    var s := Run(OnStart(Begun(heldBytes, store), settings, world), actions, settings, world);
    EveryRunIsSound(heldBytes, store, actions, settings, world);
    AcknowledgedDeletes(s, content, nodes, heldBytes, settings, world);
  }

  lemma AcknowledgedDeletes(s: Eviction, content: ContentId, nodes: set<ContentId>, start: nat, settings: Settings,
                            world: World)
    requires Sound(s, start, settings, world) && Monotone(world) && nodes != {}
    requires content in s.store && !IsKept(s, content, settings)
    ensures content !in OnAcknowledged(s, content, nodes, settings, world).store <==>
            MayGo(s.log, content, settings, world.clock(s.ticks))
  {
    var heard := Told(s.(handingOff := WithoutHandOff(s.handingOff, content)), Acknowledged(content, |nodes|));
    NotedWithinGrace(s, content, start, settings, world);
    assert ForgetOldStores(heard, settings, world).storedAt == ForgetOldStores(s, settings, world).storedAt;
    EvictKeepsStore(LetGoOf(heard, content, settings, world), settings, world);
  }
}
