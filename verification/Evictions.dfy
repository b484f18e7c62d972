/** Letting go of content as storage runs short: the module's messages, one at a time. */
module Evictions {
  import opened Wrappers
  import opened PartPaths
  import opened TimeLists
  import opened Pressure

  const HAND_OFF_COPIES: nat := 1

  datatype HeldObject = HeldObject(content: ContentId, size: nat)

  datatype HandOff = HandOff(content: ContentId, size: nat, startedAt: Time)

  /** A request to another module, and when it was sent, while it has not been answered. */
  datatype Request = Request(sentAt: Option<Time>, nextAt: Time)

  datatype Direction = Outbound | Inbound

  /** Why content was deleted: handed off, as seen at a time, or shunned. */
  datatype Cause = HandedOff(at: Time) | IsShunned

  /** What the module was told and what it did, in order. */
  datatype Event =
    | Stored(content: ContentId, size: nat, at: Time)
    | Acknowledged(content: ContentId, holders: nat)
    | Shunned(content: ContentId)
    | Named(direction: Direction, nodes: set<ContentId>)
    | CandidatesListed
    | Reclaimed
    | GaveUpAsking
    | GaveUpReclaiming
    | Paused(until: Time)
    | Noticed(content: ContentId, at: Time)
    | Deleted(content: ContentId, size: nat, cause: Cause)
    | CandidatesRequested(bytes: nat, exclude: set<ContentId>)
    | ReclaimRequested
    | SaidFull(full: bool)

  datatype Settings = Settings(
    nodeId: ContentId,
    limits: Limits,
    retryDelay: Time,
    maxHandOffs: nat,
    handOffTimeout: Time,
    grace: Time,
    candidatesTimeout: Time,
    reclaimTimeout: Time,
    reclaimInterval: Time)

  /** What each reading of the clock, and of the free space, gives. */
  datatype World = World(clock: nat -> Time, free: nat -> int)

  /** `ticks` and `looks` count the readings of the clock and of the free space. */
  datatype Eviction = Eviction(
    handingOff: seq<HandOff>,
    candidates: seq<HeldObject>,
    asking: Request,
    reclaiming: Request,
    pausedUntil: Time,
    outbound: set<ContentId>,
    inbound: set<ContentId>,
    full: Option<bool>,
    storedAt: seq<Entry>,
    heldBytes: nat,
    store: map<ContentId, nat>,
    ticks: nat,
    looks: nat,
    log: seq<Event>)

  function Begun(heldBytes: nat, store: map<ContentId, nat>): Eviction {
    Eviction([], [], Request(None, 0.0), Request(None, 0.0), 0.0, {}, {}, None, [], heldBytes, store, 0, 0, [])
  }

  function Told(s: Eviction, event: Event): Eviction {
    s.(log := s.log + [event])
  }

  /** Public keys that signatures are checked against now. */
  predicate IsKept(s: Eviction, content: ContentId, settings: Settings) {
    content == settings.nodeId || content in s.outbound || content in s.inbound
  }

  predicate HandingOff(hands: seq<HandOff>, content: ContentId) {
    hands != [] && (hands[0].content == content || HandingOff(hands[1..], content))
  }

  function WithoutHandOff(hands: seq<HandOff>, content: ContentId): seq<HandOff> {
    if hands == [] then []
    else if hands[0].content == content then hands[1..]
    else [hands[0]] + WithoutHandOff(hands[1..], content)
  }

  /** The hand-offs not yet overdue at `now`. */
  function InTime(hands: seq<HandOff>, now: Time, timeout: Time): seq<HandOff> {
    if hands == [] then []
    else (if now - hands[0].startedAt >= timeout then [] else [hands[0]]) + InTime(hands[1..], now, timeout)
  }

  function Freeing(hands: seq<HandOff>): nat {
    if hands == [] then 0 else Freeing(hands[..|hands| - 1]) + hands[|hands| - 1].size
  }

  function Sent(request: Request, now: Time, interval: Time): Request {
    request.(sentAt := Some(now), nextAt := now + interval)
  }

  function Answered(request: Request): Request {
    request.(sentAt := None)
  }

  /** Whether it is pending and has timed out by `now`. */
  predicate TimedOut(request: Request, now: Time, timeout: Time) {
    request.sentAt.Some? && now - request.sentAt.value >= timeout
  }

  // ---- Parts of the handlers ----------------------------------------------

  function ForgetOldStores(s: Eviction, settings: Settings, world: World): Eviction {
    s.(ticks := s.ticks + 1, storedAt := Dropped(s.storedAt, world.clock(s.ticks) - settings.grace))
  }

  /** Free space is looked at only where it is limited. */
  function Looked(s: Eviction, settings: Settings): Eviction {
    if settings.limits.minFree > 0 then s.(looks := s.looks + 1) else s
  }

  function ReportFull(s: Eviction, always: bool, settings: Settings, world: World): Eviction {
    var full := OverLimits(settings.limits, s.heldBytes, world.free(s.looks), settings.limits.maxObject);
    var looked := Looked(s, settings);
    if s.full == Some(full) && !always then looked
    else Told(looked.(full := Some(full)), SaidFull(full))
  }

  function Excluded(s: Eviction): set<ContentId> {
    (set h | h in s.handingOff :: h.content) + s.outbound + s.inbound + (set e | e in s.storedAt :: e.key)
  }

  function AskForCandidates(s: Eviction, needed: nat, world: World): Eviction {
    if s.asking.sentAt.Some? then s
    else
      Told(s.(asking := Sent(s.asking, world.clock(s.ticks), 0.0), ticks := s.ticks + 1),
           CandidatesRequested(needed, Excluded(s)))
  }

  function HandOffOf(s: Eviction, held: HeldObject, world: World): Eviction {
    var now := world.clock(s.ticks);
    Told(s.(handingOff := s.handingOff + [HandOff(held.content, held.size, now)], ticks := s.ticks + 1),
         Noticed(held.content, now))
  }

  predicate PassedOver(s: Eviction, content: ContentId, settings: Settings) {
    IsKept(s, content, settings) || HandingOff(s.handingOff, content) || At(s.storedAt, content).Some?
  }

  /** Starts hand-offs while those under way free less than `excess`, `freeing` being what they free. */
  function StartHandOffs(s: Eviction, freeing: nat, excess: nat, settings: Settings, world: World): Eviction
    decreases |s.candidates|
  {
    if freeing >= excess || |s.handingOff| >= settings.maxHandOffs then s
    else if s.candidates == [] then AskForCandidates(s, excess - freeing, world)
    else
      var held, popped := s.candidates[0], s.(candidates := s.candidates[1..]);
      if PassedOver(s, held.content, settings) then StartHandOffs(popped, freeing, excess, settings, world)
      else StartHandOffs(HandOffOf(popped, held, world), freeing + held.size, excess, settings, world)
  }

  /** Asks for resolved files to be deleted, if free space is short and it is due. */
  function Reclaims(s: Eviction, settings: Settings, world: World): (Eviction, bool) {
    var ticked := s.(ticks := s.ticks + 1);
    if world.clock(s.ticks) < s.reclaiming.nextAt then (ticked, false)
    else if FreeSpaceShortfall(settings.limits, world.free(s.looks)) == 0 then (Looked(ticked, settings), false)
    else
      var looked := Looked(ticked, settings);
      (Told(looked.(reclaiming := Sent(s.reclaiming, world.clock(looked.ticks), settings.reclaimInterval),
                    ticks := looked.ticks + 1), ReclaimRequested), true)
  }

  function LetGo(s: Eviction, excess: nat, settings: Settings, world: World): Eviction {
    var (asked, reclaims) := Reclaims(s, settings, world);
    if reclaims then asked
    else StartHandOffs(ForgetOldStores(asked, settings, world), Freeing(s.handingOff), excess, settings, world)
  }

  function Evict(s: Eviction, settings: Settings, world: World): Eviction {
    EvictAfter(ReportFull(s, false, settings, world), settings, world)
  }

  /** Evicting once it has been reported whether storage is full. */
  function EvictAfter(reported: Eviction, settings: Settings, world: World): Eviction {
    var ticked := reported.(ticks := reported.ticks + 1);
    if world.clock(reported.ticks) < reported.pausedUntil || |reported.handingOff| >= settings.maxHandOffs then ticked
    else if reported.reclaiming.sentAt.Some? then ticked
    else ExcessLetGo(ticked, settings, world)
  }

  /** The excess let go of; with none, what was listed to let go of is forgotten. */
  function ExcessLetGo(ticked: Eviction, settings: Settings, world: World): Eviction {
    var excess := Excess(settings.limits, ticked.heldBytes, world.free(ticked.looks));
    var looked := Looked(ticked, settings);
    if excess == 0 then looked.(candidates := []) else LetGo(looked, excess, settings, world)
  }

  /** The node's copy deleted, if it has one. */
  function Delete(s: Eviction, content: ContentId, cause: Cause): Eviction {
    if content !in s.store then s
    else
      Told(s.(store := s.store - {content}, heldBytes := Less(s.heldBytes, s.store[content])),
           Deleted(content, s.store[content], cause))
  }

  // ---- The messages -------------------------------------------------------

  /** Content stored, which goes to the end of those, as the latest. */
  function Noting(s: Eviction, content: ContentId, size: nat, world: World): Eviction {
    var now := world.clock(s.ticks);
    Told(s.(storedAt := Without(s.storedAt, content) + [Entry(content, now)], ticks := s.ticks + 1,
            heldBytes := s.heldBytes + size), Stored(content, size, now))
  }

  function OnDataStored(s: Eviction, content: ContentId, size: nat, settings: Settings, world: World): Eviction {
    Evict(Noting(ForgetOldStores(s, settings, world), content, size, world), settings, world)
  }

  function OnAcknowledged(s: Eviction, content: ContentId, nodes: set<ContentId>, settings: Settings, world: World): Eviction {
    var heard := Told(s.(handingOff := WithoutHandOff(s.handingOff, content)), Acknowledged(content, |nodes|));
    if |nodes| < HAND_OFF_COPIES then RetryLater(heard, settings, world)
    else Evict(LetGoOf(heard, content, settings, world), settings, world)
  }

  /** No hand-off starts for as long as a retry waits. */
  function RetryLater(s: Eviction, settings: Settings, world: World): Eviction {
    PausedFor(s.(ticks := s.ticks + 1), world.clock(s.ticks) + settings.retryDelay)
  }

  function PausedFor(s: Eviction, until: Time): Eviction {
    Told(s.(pausedUntil := until), Paused(until))
  }

  /** Content other nodes hold deleted, unless it is a key needed, or was stored again meanwhile. */
  function LetGoOf(s: Eviction, content: ContentId, settings: Settings, world: World): Eviction {
    var forgot := ForgetOldStores(s, settings, world);
    if IsKept(forgot, content, settings) || At(forgot.storedAt, content).Some? then forgot
    else Delete(forgot, content, HandedOff(world.clock(s.ticks)))
  }

  /** Waits for the earliest content still in its grace to be out of it, or for as long as a retry. */
  function WaitsFor(s: Eviction, settings: Settings, world: World): Eviction {
    if s.storedAt != [] then PausedFor(s, s.storedAt[0].at + settings.grace)
    else Looked(RetryLater(s, settings, world), settings)
  }

  /** With nothing listed, waits for content to be out of its grace, or for as long as a retry. */
  function Waits(s: Eviction, settings: Settings, world: World): Eviction {
    var excess := Excess(settings.limits, s.heldBytes, world.free(s.looks));
    var looked := Looked(s, settings);
    if excess == 0 then looked
    else
      WaitsFor(ForgetOldStores(looked, settings, world), settings, world)
  }

  function OnCandidates(s: Eviction, objects: seq<HeldObject>, settings: Settings, world: World): Eviction {
    var listed := Told(s.(asking := Answered(s.asking), candidates := objects), CandidatesListed);
    if objects != [] then Evict(listed, settings, world)
    else if s.handingOff != [] then listed
    else Waits(listed, settings, world)
  }

  function Listing(candidates: seq<HeldObject>, content: ContentId): seq<HeldObject> {
    if candidates == [] then []
    else (if candidates[0].content == content then [] else [candidates[0]]) + Listing(candidates[1..], content)
  }

  function OnDataShunned(s: Eviction, content: ContentId, settings: Settings, world: World): Eviction {
    var heard := Told(s, Shunned(content));
    if IsKept(s, content, settings) then heard
    else
      var dropped := heard.(storedAt := Without(s.storedAt, content), candidates := Listing(s.candidates, content));
      if content !in s.store then dropped
      else Evict(Delete(dropped, content, IsShunned), settings, world)
  }

  function OnPeersConnected(s: Eviction, direction: Direction, nodes: set<ContentId>): Eviction {
    Told(if direction.Outbound? then s.(outbound := nodes) else s.(inbound := nodes), Named(direction, nodes))
  }

  function OnReclaimed(s: Eviction, settings: Settings, world: World): Eviction {
    Evict(Told(s.(reclaiming := Answered(s.reclaiming)), Reclaimed), settings, world)
  }

  function GiveUps(s: Eviction, now: Time, settings: Settings): Eviction {
    var asking, reclaiming :=
      TimedOut(s.asking, now, settings.candidatesTimeout), TimedOut(s.reclaiming, now, settings.reclaimTimeout);
    var first := if asking then Told(s.(asking := Answered(s.asking)), GaveUpAsking) else s;
    if reclaiming then Told(first.(reclaiming := Answered(s.reclaiming)), GaveUpReclaiming) else first
  }

  /** What has timed out by `now` given up on, and a pause that is over forgotten. */
  function GivesUp(s: Eviction, now: Time, settings: Settings): Eviction {
    var gaveUp := GiveUps(s.(handingOff := InTime(s.handingOff, now, settings.handOffTimeout)), now, settings);
    if 0.0 < s.pausedUntil <= now then gaveUp.(pausedUntil := 0.0) else gaveUp
  }

  /** Whether anything was given up on, or a pause was over. */
  predicate Changed(s: Eviction, after: Eviction) {
    || |after.handingOff| < |s.handingOff| || after.asking != s.asking || after.reclaiming != s.reclaiming
    || after.pausedUntil != s.pausedUntil
  }

  function OnIdle(s: Eviction, settings: Settings, world: World): Eviction {
    var reported := ReportFull(s, false, settings, world);
    var now := world.clock(reported.ticks);
    var ticked := reported.(ticks := reported.ticks + 1);
    var after := GivesUp(ticked, now, settings);
    if Changed(ticked, after) then Evict(after, settings, world) else after
  }

  lemma IdleIs(s: Eviction, reported: Eviction, ticked: Eviction, after: Eviction, settings: Settings, world: World)
    requires reported == ReportFull(s, false, settings, world)
    requires ticked == reported.(ticks := reported.ticks + 1)
    requires after == GivesUp(ticked, world.clock(reported.ticks), settings)
    ensures OnIdle(s, settings, world) == if Changed(ticked, after) then Evict(after, settings, world) else after
  {
  }

  function OnStart(s: Eviction, settings: Settings, world: World): Eviction {
    Evict(ReportFull(s, true, settings, world), settings, world)
  }

  // ---- Runs ---------------------------------------------------------------

  /** The messages, idle ticks, and what happens to the store unseen. */
  datatype Action =
    | Store(content: ContentId, size: nat)
    | Acknowledge(content: ContentId, nodes: set<ContentId>)
    | List(objects: seq<HeldObject>)
    | Shun(content: ContentId)
    | Name(direction: Direction, nodes: set<ContentId>)
    | Reclaim
    | AskFull
    | Idle
    | Elsewhere(store: map<ContentId, nat>)

  function Take(s: Eviction, action: Action, settings: Settings, world: World): Eviction {
    match action
    case Store(content, size) => OnDataStored(s, content, size, settings, world)
    case Acknowledge(content, nodes) => OnAcknowledged(s, content, nodes, settings, world)
    case List(objects) => OnCandidates(s, objects, settings, world)
    case Shun(content) => OnDataShunned(s, content, settings, world)
    case Name(direction, nodes) => OnPeersConnected(s, direction, nodes)
    case Reclaim => OnReclaimed(s, settings, world)
    case AskFull => ReportFull(s, true, settings, world)
    case Idle => OnIdle(s, settings, world)
    case Elsewhere(store) => s.(store := store)
  }

  function Run(s: Eviction, actions: seq<Action>, settings: Settings, world: World): Eviction
    decreases |actions|
  {
    if actions == [] then s else Run(Take(s, actions[0], settings, world), actions[1..], settings, world)
  }

  // ---- The module ---------------------------------------------------------

  class EvictionModule {
    const settings: Settings
    const world: World
    const pressure: StoragePressure
    var handingOff: seq<HandOff>
    var candidates: seq<HeldObject>
    var asking: Request
    var reclaiming: Request
    var pausedUntil: Time
    var outbound: set<ContentId>
    var inbound: set<ContentId>
    var full: Option<bool>
    var storedAt: seq<Entry>
    var store: map<ContentId, nat>
    var ticks: nat
    var looks: nat
    var log: seq<Event>

    function State(): Eviction
      reads this, pressure
    {
      Eviction(handingOff, candidates, asking, reclaiming, pausedUntil, outbound, inbound, full, storedAt,
               pressure.heldBytes, store, ticks, looks, log)
    }

    constructor (settings: Settings, world: World, heldBytes: nat, store: map<ContentId, nat>)
      ensures State() == Begun(heldBytes, store) && fresh(pressure)
      ensures this.settings == settings && this.world == world && pressure.limits == settings.limits
    {
      this.settings, this.world := settings, world;
      pressure := new StoragePressure(settings.limits, heldBytes);
      handingOff, candidates := [], [];
      asking, reclaiming, pausedUntil := Request(None, 0.0), Request(None, 0.0), 0.0;
      outbound, inbound, full, storedAt := {}, {}, None, [];
      this.store := store;
      ticks, looks, log := 0, 0, [];
    }

    method Now() returns (now: Time)
      modifies this`ticks
      ensures now == world.clock(old(ticks)) && ticks == old(ticks) + 1
    {
      now := world.clock(ticks);
      ticks := ticks + 1;
    }

    method FreeBytes() returns (free: int)
      modifies this`looks
      ensures free == world.free(old(looks)) && State() == Looked(old(State()), settings)
    {
      free := world.free(looks);
      if settings.limits.minFree > 0 {
        looks := looks + 1;
      }
    }

    method ForgetOld()
      modifies this
      ensures State() == ForgetOldStores(old(State()), settings, world)
    {
      var now := Now();
      var since := now - settings.grace;
      ghost var middle := State();
      while storedAt != [] && storedAt[0].at <= since
        invariant Dropped(storedAt, since) == Dropped(middle.storedAt, since)
        invariant State() == middle.(storedAt := storedAt)
        decreases |storedAt|
      {
        storedAt := storedAt[1..];
      }
    }

    method Report(always: bool)
      modifies this
      ensures State() == ReportFull(old(State()), always, settings, world)
    {
      var free := FreeBytes();
      var isFull := OverLimits(settings.limits, pressure.heldBytes, free, settings.limits.maxObject);
      if full == Some(isFull) && !always {
        return;
      }
      full := Some(isFull);
      log := log + [SaidFull(isFull)];
    }

    method AskForMore(needed: nat)
      modifies this
      ensures State() == AskForCandidates(old(State()), needed, world)
    {
      if asking.sentAt.Some? {
        return;
      }
      var excluded := Excluded(State());
      var now := Now();
      asking := Sent(asking, now, 0.0);
      log := log + [CandidatesRequested(needed, excluded)];
    }

    method StartOne(held: HeldObject)
      modifies this
      ensures State() == HandOffOf(old(State()), held, world)
    {
      var now := Now();
      handingOff := handingOff + [HandOff(held.content, held.size, now)];
      log := log + [Noticed(held.content, now)];
    }

    /** Starts hand-offs until those under way would free `excess` bytes. */
    method StartAll(excess: nat)
      modifies this
      ensures State() == StartHandOffs(old(State()), Freeing(old(handingOff)), excess, settings, world)
    {
      var freeing: nat := Freeing(handingOff);
      ghost var done := StartHandOffs(State(), freeing, excess, settings, world);
      while freeing < excess && |handingOff| < settings.maxHandOffs
        invariant StartHandOffs(State(), freeing, excess, settings, world) == done
        decreases |candidates|
      {
        if candidates == [] {
          AskForMore(excess - freeing);
          return;
        }
        var held := candidates[0];
        candidates := candidates[1..];
        if !PassedOver(State(), held.content, settings) {
          StartOne(held);
          freeing := freeing + held.size;
        }
      }
    }

    method ReclaimFirst() returns (reclaims: bool)
      modifies this
      ensures (State(), reclaims) == Reclaims(old(State()), settings, world)
    {
      var now := Now();
      if now < reclaiming.nextAt {
        return false;
      }
      var free := FreeBytes();
      if FreeSpaceShortfall(settings.limits, free) == 0 {
        return false;
      }
      now := Now();
      reclaiming := Sent(reclaiming, now, settings.reclaimInterval);
      log := log + [ReclaimRequested];
      return true;
    }

    method EvictSome()
      modifies this
      ensures State() == Evict(old(State()), settings, world)
    {
      Report(false);
      EvictReported();
    }

    /** Evicts, once it has been reported whether storage is full. */
    method EvictReported()
      modifies this
      ensures State() == EvictAfter(old(State()), settings, world)
    {
      var now := Now();
      if now < pausedUntil || |handingOff| >= settings.maxHandOffs || reclaiming.sentAt.Some? {
        return;
      }
      EvictExcess();
    }

    /** Measures the excess, and lets go of it. */
    method EvictExcess()
      modifies this
      ensures State() == ExcessLetGo(old(State()), settings, world)
    {
      var free := FreeBytes();
      var excess := Excess(settings.limits, pressure.heldBytes, free);
      if excess == 0 {
        candidates := [];
        return;
      }
      LetGoSome(excess);
    }

    /** Has resolved files reclaimed first, or else starts hand-offs. */
    method LetGoSome(excess: nat)
      modifies this
      ensures State() == LetGo(old(State()), excess, settings, world)
    {
      var reclaims := ReclaimFirst();
      if !reclaims {
        ForgetOld();
        StartAll(excess);
      }
    }

    method DeleteCopy(content: ContentId, cause: Cause) returns (was: bool)
      modifies this, pressure
      ensures State() == Delete(old(State()), content, cause) && was == (content in old(store))
    {
      if content !in store {
        return false;
      }
      var size := store[content];
      store := store - {content};
      pressure.Deleted(size);
      log := log + [Deleted(content, size, cause)];
      return true;
    }

    method Begin()
      modifies this
      ensures State() == OnStart(old(State()), settings, world)
    {
      Report(true);
      EvictSome();
    }

    method NoteStored(content: ContentId, size: nat)
      modifies this, pressure
      ensures State() == Noting(old(State()), content, size, world)
    {
      var now := Now();
      storedAt := Without(storedAt, content) + [Entry(content, now)];
      pressure.Stored(size);
      log := log + [Stored(content, size, now)];
    }

    method DataStored(content: ContentId, size: nat)
      modifies this, pressure
      ensures State() == OnDataStored(old(State()), content, size, settings, world)
    {
      ForgetOld();
      NoteStored(content, size);
      EvictSome();
    }

    method EvictionAcknowledged(content: ContentId, nodes: set<ContentId>)
      modifies this, pressure
      ensures State() == OnAcknowledged(old(State()), content, nodes, settings, world)
    {
      handingOff := WithoutHandOff(handingOff, content);
      log := log + [Acknowledged(content, |nodes|)];
      if |nodes| < HAND_OFF_COPIES {
        var now := Now();
        pausedUntil := now + settings.retryDelay;
        log := log + [Paused(pausedUntil)];
        return;
      }
      var now := world.clock(ticks);
      ForgetOld();
      if !IsKept(State(), content, settings) && At(storedAt, content).None? {
        var deleted := DeleteCopy(content, HandedOff(now));
      }
      EvictSome();
    }

    method EvictionCandidates(objects: seq<HeldObject>)
      modifies this
      ensures State() == OnCandidates(old(State()), objects, settings, world)
    {
      asking := Answered(asking);
      candidates := objects;
      log := log + [CandidatesListed];
      if candidates != [] {
        EvictSome();
        return;
      }
      if handingOff != [] {
        return;
      }
      WaitForMore();
    }

    /** Waits for content to be out of its grace, or for as long as a retry. */
    method WaitForMore()
      modifies this
      ensures State() == Waits(old(State()), settings, world)
    {
      var free := FreeBytes();
      if Excess(settings.limits, pressure.heldBytes, free) == 0 {
        return;
      }
      ForgetOld();
      if storedAt != [] {
        pausedUntil := storedAt[0].at + settings.grace;
        log := log + [Paused(pausedUntil)];
        return;
      }
      var now := Now();
      pausedUntil := now + settings.retryDelay;
      log := log + [Paused(pausedUntil)];
      free := FreeBytes();
    }

    method DataShunned(content: ContentId)
      modifies this, pressure
      ensures State() == OnDataShunned(old(State()), content, settings, world)
    {
      log := log + [Shunned(content)];
      if IsKept(State(), content, settings) {
        return;
      }
      storedAt := Without(storedAt, content);
      candidates := Listing(candidates, content);
      var deleted := DeleteCopy(content, IsShunned);
      if deleted {
        EvictSome();
      }
    }

    method PeersConnected(direction: Direction, nodes: set<ContentId>)
      modifies this
      ensures State() == OnPeersConnected(old(State()), direction, nodes)
    {
      if direction.Outbound? {
        outbound := nodes;
      } else {
        inbound := nodes;
      }
      log := log + [Named(direction, nodes)];
    }

    method ResolvedReclaimed()
      modifies this
      ensures State() == OnReclaimed(old(State()), settings, world)
    {
      reclaiming := Answered(reclaiming);
      log := log + [Reclaimed];
      EvictSome();
    }

    /** Gives up on what has timed out by `now`; whether anything was, or a pause was over. */
    method GiveUp(now: Time) returns (changed: bool)
      modifies this
      ensures State() == GivesUp(old(State()), now, settings)
      ensures changed <==> Changed(old(State()), State())
    {
      var before := |handingOff|;
      handingOff := InTime(handingOff, now, settings.handOffTimeout);
      var unanswered := TimedOut(asking, now, settings.candidatesTimeout);
      if unanswered {
        asking := Answered(asking);
        log := log + [GaveUpAsking];
      }
      var unreclaimed := TimedOut(reclaiming, now, settings.reclaimTimeout);
      if unreclaimed {
        reclaiming := Answered(reclaiming);
        log := log + [GaveUpReclaiming];
      }
      var resumed := 0.0 < pausedUntil <= now;
      if resumed {
        pausedUntil := 0.0;
      }
      changed := |handingOff| < before || unanswered || unreclaimed || resumed;
    }

    method IdleTick()
      modifies this
      ensures State() == OnIdle(old(State()), settings, world)
    {
      ghost var s := State();
      Report(false);
      ghost var reported := State();
      var now := Now();
      ghost var ticked := State();
      var changed := GiveUp(now);
      IdleIs(s, reported, ticked, State(), settings, world);
      if changed {
        EvictSome();
      }
    }
  }
}
