/** Versions of a directory stored one over another, however each is come by and wherever kept. */
module Histories {
  import opened Wrappers
  import opened PartPaths
  import opened Shapes
  import opened Overlay
  import opened Reach
  import opened Vaults
  import opened Reading
  import opened Storing
  import opened Layerings

  // ---- Working out where a bundle sits ------------------------------------

  /** `Contradictory` is a bundle listing more layers than the extensions read from it. */
  datatype Expansion = Known(superseded: Superseded) | Unreadable | Contradictory

  /** Where the first of `names` that `versions` holds stands. */
  function FirstAmong(names: seq<string>, versions: seq<string>): (index: nat)
    ensures index <= |names|
  {
    if names == [] || names[0] in versions then 0 else 1 + FirstAmong(names[1..], versions)
  }

  predicate NoRepeat(names: seq<string>) {
    forall i, j :: 0 <= i < j < |names| ==> names[i] != names[j]
  }

  function Unlayered(p: PartPath, entries: map<string, Entry>): Superseded {
    Superseded(p, entries, [], None, map[])
  }

  /** Where a bundle sits, worked out from what it lists and what was read of its extensions. */
  function ExpandedFrom(outcome: Outcome, p: PartPath, top: Directory): Expansion {
    if !outcome.answer.Overlaid? then Unreadable
    else
      var beneath := top.extensions[FirstAmong(top.extensions, top.versions)..];
      if !NoRepeat(beneath) then Known(Unlayered(p, outcome.answer.entries))
      else if |outcome.loads| < |beneath| then Contradictory
      else Known(Superseded(p, outcome.answer.entries, beneath, Some(Layering(|beneath|, |outcome.loads|)), map[]))
  }

  /** `top`, named `p`, expanded, where it sits worked out from what it lists. */
  function Expand(r: Reader, p: PartPath, top: Directory): Expansion {
    ExpandedFrom(Resolved(r, top, MAX_EXTENSIONS), p, top)
  }

  /** Where a bundle sits as was recorded; a record counting more layers is not its own. */
  function ReadFrom(outcome: Outcome, p: PartPath, extensions: seq<string>, recorded: Option<Layering>): Option<Superseded> {
    if !outcome.answer.Overlaid? then None
    else if recorded.None? || recorded.value.layers > |extensions| then Some(Unlayered(p, outcome.answer.entries))
    else
      Some(Superseded(p, outcome.answer.entries, extensions[|extensions| - recorded.value.layers..], recorded, map[]))
  }

  /** `id` read back, where it sits as was recorded. */
  function Read(r: Reader, id: ContentId, recorded: Option<Layering>): Option<Superseded> {
    if !HeldDirectory(r, Plain(id)) then None
    else
      var top := r.load(Plain(id)).bundle.directory;
      ReadFrom(Resolved(r, top, MAX_EXTENSIONS), Plain(id), top.extensions, recorded)
  }

  /** The same, following the extensions as a reader does and counting those read. */
  method ExpandBundle(r: Reader, p: PartPath, top: Directory) returns (expansion: Expansion)
    ensures expansion == Expand(r, p, top)
  {
    var answer, reached := ResolveDirectory(r, top, MAX_EXTENSIONS);
    if !answer.Overlaid? {
      return Unreadable;
    }
    var first := 0;
    while first < |top.extensions| && top.extensions[first] !in top.versions
      invariant first <= |top.extensions|
      invariant FirstAmong(top.extensions, top.versions) ==
                first + FirstAmong(top.extensions[first..], top.versions)
    {
      assert top.extensions[first..][1..] == top.extensions[first + 1..];
      first := first + 1;
    }
    var beneath := top.extensions[first..];
    if !NoRepeat(beneath) {
      return Known(Unlayered(p, answer.entries));
    }
    if |reached| < |beneath| {
      return Contradictory;
    }
    return Known(Superseded(p, answer.entries, beneath, Some(Layering(|beneath|, |reached|)), map[]));
  }

  /** An overlay that is what the bundle `top` at `p` holds, of extensions that can be followed. */
  ghost predicate IsOverlayOf(v: Vault, outcome: Outcome, p: PartPath, top: Directory)
    requires IsVault(v)
  {
    && Ideal(v).load(p) == Held(Dir(top)) && Followable(v, top.extensions)
    && (outcome.answer.Overlaid? ==>
          outcome.answer == Overlaid(Present(Contents(v, p))) && ReachesAtMost(v, top.extensions, |outcome.loads|))
  }

  /** What a bundle holds, and the last of what it extends, say where it sits. */
  lemma SitsAtEnd(v: Vault, s: Superseded, extensions: seq<string>, first: nat)
    requires IsVault(v) && Nameable(s.path) && HeldDirectory(Ideal(v), s.path)
    requires extensions == ExtensionsOf(Ideal(v), s.path) && Followable(v, extensions)
    requires Present(Contents(v, s.path)) == s.entries
    requires first <= |extensions| && s.beneath == extensions[first..]
    requires match s.layering
             case None => s.beneath == []
             case Some(layering) => IsLayering(layering, s.beneath) && ReachesAtMost(v, extensions, layering.extensions)
    ensures IsSuperseded(v, s)
  {
    SuffixIsAtEnd(extensions, first);
  }

  lemma ExpandedIsSuperseded(v: Vault, outcome: Outcome, p: PartPath, top: Directory)
    requires IsVault(v) && Nameable(p) && IsOverlayOf(v, outcome, p, top)
    ensures var e := ExpandedFrom(outcome, p, top);
            e.Known? ==> IsSuperseded(v, e.superseded) && e.superseded.path == p
  {
    var e := ExpandedFrom(outcome, p, top);
    if e.Known? {
      SitsAtEnd(v, e.superseded, top.extensions,
                if e.superseded.layering.None? then |top.extensions| else FirstAmong(top.extensions, top.versions));
    }
  }

  lemma ReadFromIsSuperseded(v: Vault, outcome: Outcome, p: PartPath, top: Directory, recorded: Option<Layering>)
    requires IsVault(v) && Nameable(p) && IsOverlayOf(v, outcome, p, top)
    requires recorded.Some? ==>
               && recorded.value.layers <= recorded.value.extensions
               && ReachesAtMost(v, top.extensions, recorded.value.extensions)
    ensures var s := ReadFrom(outcome, p, top.extensions, recorded);
            s.Some? ==> IsSuperseded(v, s.value) && s.value.path == p
  {
    var s := ReadFrom(outcome, p, top.extensions, recorded);
    if s.Some? {
      SitsAtEnd(v, s.value, top.extensions, |top.extensions| - |s.value.beneath|);
    }
  }

  lemma ResolvedIsOverlay(v: Vault, sink: Sink, cap: nat, p: PartPath, top: Directory, outcome: Outcome)
    requires IsVault(v) && Genuine(v, sink) && Ideal(v).load(p) == Held(Dir(top))
    requires outcome == Resolved(ReaderOf(v, sink, cap), top, MAX_EXTENSIONS) && outcome.answer.Overlaid?
    ensures IsOverlayOf(v, outcome, p, top)
  {
    OverlaidIsContents(v, sink, cap, MAX_EXTENSIONS, p, top);
  }

  lemma ExpandIsSuperseded(v: Vault, sink: Sink, cap: nat, p: PartPath, top: Directory)
    requires IsVault(v) && Genuine(v, sink) && Nameable(p) && Ideal(v).load(p) == Held(Dir(top))
    ensures var e := Expand(ReaderOf(v, sink, cap), p, top);
            e.Known? ==> IsSuperseded(v, e.superseded) && e.superseded.path == p
  {
    var outcome := Resolved(ReaderOf(v, sink, cap), top, MAX_EXTENSIONS);
    if outcome.answer.Overlaid? {
      ResolvedIsOverlay(v, sink, cap, p, top, outcome);
      ExpandedIsSuperseded(v, outcome, p, top);
    }
  }

  /** Only a bundle naming one extension in two spellings lists more layers than are read. */
  lemma ContradictoryNamesTwice(r: Reader, p: PartPath, top: Directory)
    requires Expand(r, p, top).Contradictory?
    ensures exists a, b :: a in top.extensions && b in top.extensions && a != b && r.parse(a) == r.parse(b)
  {
    var outcome := Resolved(r, top, MAX_EXTENSIONS);
    var beneath := top.extensions[FirstAmong(top.extensions, top.versions)..];
    ResolvedAnswers(r, top, MAX_EXTENSIONS);
    forall i | 0 <= i < |beneath|
      ensures r.parse(beneath[i]).Success? && r.parse(beneath[i]).value in outcome.loads
    {
      assert Listed(r, top.extensions, beneath[i]);
      assert Reaches(r, top.extensions, r.parse(beneath[i]).value, 0);
    }
    var paths := seq(|beneath|, i requires 0 <= i < |beneath| && r.parse(beneath[i]).Success? => r.parse(beneath[i]).value);
    if Unique(paths) {
      LoadsWithin(outcome.loads);
      UniqueWithin(paths, set q | q in outcome.loads);
    }
    var i, j :| 0 <= i < j < |paths| && paths[i] == paths[j];
    assert beneath[i] in top.extensions && beneath[j] in top.extensions;
  }

  /** The extensions a bundle lists from the first version it supersedes on. */
  function Beneath(top: Directory): seq<string> {
    top.extensions[FirstAmong(top.extensions, top.versions)..]
  }

  /** Whether `reached` is all that is reachable, and nothing of it stands in a reader's way. */
  ghost predicate OverlaidFrom(r: Reader, top: Directory, max: nat, reached: set<PartPath>) {
    && |reached| <= max && (forall p :: p in reached <==> Reachable(r, top.extensions, p))
    && (forall p :: p in reached ==> Unspoiled(r, p) && forall id :: !Lacks(r, p, id))
    && (forall name :: Listed(r, top.extensions, name) ==> r.parse(name).Success?)
  }

  lemma OverlaysFrom(r: Reader, top: Directory, max: nat, reached: set<PartPath>)
    requires OverlaidFrom(r, top, max, reached)
    ensures Resolved(r, top, max).answer.Overlaid? && |Resolved(r, top, max).loads| == |reached|
  {
    ResolvedAnswers(r, top, max);
    var outcome := Resolved(r, top, max);
    match outcome.answer {
      case Overlaid(_) =>
        LoadsWithin(outcome.loads);
        UniqueWithin(outcome.loads, reached);
        assert reached == set q | q in outcome.loads;
      case Lacking(ids) =>
        assert false;
      case TooManyExtensions =>
        var ps :| |ps| == max + 1 && Unique(ps) && forall p :: p in ps ==> Reachable(r, top.extensions, p);
        UniqueWithin(ps, reached);
      case Failed(error) =>
    }
  }

  /**
   A bundle is refused as listing more layers than are read of it if and only if everything
   reachable is overlaid, no layer is listed twice as spelled, and fewer paths are reachable
   than layers are listed.
   */
  lemma ContradictoryExactly(r: Reader, p: PartPath, top: Directory)
    ensures Expand(r, p, top).Contradictory? <==>
            && NoRepeat(Beneath(top))
            && exists reached :: OverlaidFrom(r, top, MAX_EXTENSIONS, reached) && |reached| < |Beneath(top)|
  {
    var outcome := Resolved(r, top, MAX_EXTENSIONS);
    if outcome.answer.Overlaid? {
      ResolvedAnswers(r, top, MAX_EXTENSIONS);
      LoadsWithin(outcome.loads);
      var reached := set q | q in outcome.loads;
      UniqueWithin(outcome.loads, reached);
      assert OverlaidFrom(r, top, MAX_EXTENSIONS, reached);
    }
    forall reached | OverlaidFrom(r, top, MAX_EXTENSIONS, reached)
      ensures outcome.answer.Overlaid? && |outcome.loads| == |reached|
    {
      OverlaysFrom(r, top, MAX_EXTENSIONS, reached);
    }
  }

  lemma ReadIsSuperseded(v: Vault, sink: Sink, cap: nat, id: ContentId, recorded: Option<Layering>)
    requires IsVault(v) && Genuine(v, sink)
    requires recorded.Some? ==>
               && recorded.value.layers <= recorded.value.extensions
               && ReachesAtMost(v, ExtensionsOf(Ideal(v), Plain(id)), recorded.value.extensions)
    ensures var s := Read(ReaderOf(v, sink, cap), id, recorded);
            s.Some? ==> IsSuperseded(v, s.value) && s.value.path == Plain(id)
  {
    var r := ReaderOf(v, sink, cap);
    if HeldDirectory(r, Plain(id)) {
      var top := r.load(Plain(id)).bundle.directory;
      var outcome := Resolved(r, top, MAX_EXTENSIONS);
      ReadsIdeally(v, sink, cap, Plain(id));
      if outcome.answer.Overlaid? {
        ResolvedIsOverlay(v, sink, cap, Plain(id), top, outcome);
        ReadFromIsSuperseded(v, outcome, Plain(id), top, recorded);
      }
    }
  }

  lemma SuffixIsAtEnd(names: seq<string>, first: nat)
    requires first <= |names|
    ensures EndsWith(names, names[first..])
  {
    assert |names| - |names[first..]| == first;
  }

  // ---- Histories ----------------------------------------------------------

  /** The version stored last, and what a next one would be layered over, if that is known. */
  datatype Newest = Newest(
    stored: StoredVersion,
    entries: map<string, Entry>,
    limits: Limits,
    superseded: Option<Superseded>)

  /** `sink` is what is held now, and `ever` everything that was written. */
  datatype History = History(sink: Sink, ever: Sink, newest: Option<Newest>)

  datatype Event =
    | Stored(entries: map<string, Entry>, metadata: Metadata, versions: seq<string>, w: Writing, limits: Limits)
    | ExpandedAgain(cap: nat)
    | ReadAgain(cap: nat)
    | Forgotten
    | Evicted(ids: set<ContentId>)
    | Fetched(ids: set<ContentId>)

  function ExpandNewest(r: Reader, newest: Newest): Option<Superseded> {
    if !HeldDirectory(r, newest.stored.path) then None
    else
      match Expand(r, newest.stored.path, r.load(newest.stored.path).bundle.directory)
      case Known(s) => Some(s)
      case Unreadable => None
      case Contradictory => None
  }

  function StoreNext(v: Vault, h: History, version: Directory, entries: map<string, Entry>, w: Writing, limits: Limits)
    : History
  {
    var superseded := if h.newest.None? then None else h.newest.value.superseded;
    var after := StoreVersion(v, superseded, h.sink, version, w, limits);
    History(after.sink, h.ever + after.sink,
            if after.stored.None? then h.newest
            else Some(Newest(after.stored.value, entries, limits, Some(Expanded(after.stored.value, entries)))))
  }

  function Next(v: Vault, h: History, event: Event): History {
    match event
    case Stored(entries, metadata, versions, w, limits) =>
      StoreNext(v, h, Directory(Lifted(entries), metadata, versions, []), entries, w, limits)
    case ExpandedAgain(cap) =>
      if h.newest.None? then h
      else h.(newest := Some(h.newest.value.(superseded := ExpandNewest(ReaderOf(v, h.sink, cap), h.newest.value))))
    case ReadAgain(cap) =>
      if h.newest.None? then h
      else
        var stored := h.newest.value.stored;
        h.(newest := Some(h.newest.value.(superseded :=
          Read(ReaderOf(v, h.sink, cap), stored.path.contentId, Some(stored.layering)))))
    case Forgotten =>
      if h.newest.None? then h else h.(newest := Some(h.newest.value.(superseded := None)))
    case Evicted(ids) => h.(sink := h.sink - ids)
    case Fetched(ids) => h.(sink := h.sink + (map id | id in ids && id in h.ever :: h.ever[id]))
  }

  const NOTHING_YET := History(map[], map[], None)

  function Run(v: Vault, events: seq<Event>): History {
    if events == [] then NOTHING_YET
    else Next(v, Run(v, events[..|events| - 1]), events[|events| - 1])
  }

  ghost predicate IsNewest(v: Vault, ever: Sink, n: Newest)
    requires IsVault(v)
  {
    && IsVersion(v, n.stored, n.entries, n.limits)
    && WhollyKept(v, ever, n.stored.path)
    && (n.superseded.Some? ==>
          && IsSuperseded(v, n.superseded.value)
          && n.superseded.value.path == n.stored.path
          && n.superseded.value.entries == n.entries)
  }

  ghost predicate IsHistory(v: Vault, h: History)
    requires IsVault(v)
  {
    && Genuine(v, h.ever) && Grows(h.sink, h.ever)
    && (h.newest.Some? ==> IsNewest(v, h.ever, h.newest.value))
  }

  lemma PresentOfLifted(entries: map<string, Entry>)
    ensures Present(Lifted(entries)) == entries
  {
  }

  lemma JoinedSinks(v: Vault, sink: Sink, ever: Sink, later: Sink)
    requires IsVault(v) && Genuine(v, ever) && Grows(sink, ever) && Genuine(v, later) && Grows(sink, later)
    ensures Genuine(v, ever + later) && Grows(later, ever + later) && Grows(ever, ever + later)
  {
    forall id | id in ever && id in later
      ensures ever[id] == later[id]
    {
      assert v.address(ever[id]) == v.address(later[id]);
    }
  }

  lemma StoreNextKeeps(v: Vault, h: History, version: Directory, entries: map<string, Entry>, w: Writing, limits: Limits)
    requires IsVault(v) && IsHistory(v, h) && version.extensions == [] && Present(version.entries) == entries
    ensures IsHistory(v, StoreNext(v, h, version, entries, w, limits))
  {
    var superseded := if h.newest.None? then None else h.newest.value.superseded;
    var after := StoreVersion(v, superseded, h.sink, version, w, limits);
    StoreVersionStores(v, superseded, h.sink, version, w, limits, h.ever + after.sink);
    JoinedSinks(v, h.sink, h.ever, after.sink);
  }

  lemma ExpandNewestKeeps(v: Vault, h: History, cap: nat)
    requires IsVault(v) && IsHistory(v, h) && h.newest.Some?
    ensures IsHistory(v, Next(v, h, ExpandedAgain(cap)))
  {
    var n := h.newest.value;
    var r := ReaderOf(v, h.sink, cap);
    if HeldDirectory(r, n.stored.path) {
      ReadsIdeally(v, h.sink, cap, n.stored.path);
      ExpandIsSuperseded(v, h.sink, cap, n.stored.path, r.load(n.stored.path).bundle.directory);
    }
  }

  lemma ReadNewestKeeps(v: Vault, h: History, cap: nat)
    requires IsVault(v) && IsHistory(v, h) && h.newest.Some?
    ensures IsHistory(v, Next(v, h, ReadAgain(cap)))
  {
    var n := h.newest.value;
    var p := n.stored.path;
    if HeldDirectory(ReaderOf(v, h.sink, cap), Plain(p.contentId)) {
      PlainIsNamed(v, h.sink, p, cap);
      ReadIsSuperseded(v, h.sink, cap, p.contentId, Some(n.stored.layering));
    }
  }

  /** What opens plainly is named with no key. */
  lemma PlainIsNamed(v: Vault, sink: Sink, p: PartPath, cap: nat)
    requires IsVault(v) && Genuine(v, sink) && HeldDirectory(Ideal(v), p)
    requires HeldDirectory(ReaderOf(v, sink, cap), Plain(p.contentId))
    ensures p == Plain(p.contentId)
  {
    var o := Named(v, p).value;
    assert IsAt(v, o, p);
    assert v.address(sink[p.contentId]) == v.address(o);
  }

  lemma {:induction false} NextKeeps(v: Vault, h: History, event: Event)
    requires IsVault(v) && IsHistory(v, h)
    ensures IsHistory(v, Next(v, h, event))
  {
    match event {
      case Stored(entries, metadata, versions, w, limits) =>
        PresentOfLifted(entries);
        StoreNextKeeps(v, h, Directory(Lifted(entries), metadata, versions, []), entries, w, limits);
      case ExpandedAgain(cap) =>
        if h.newest.Some? {
          ExpandNewestKeeps(v, h, cap);
        }
      case ReadAgain(cap) =>
        if h.newest.Some? {
          ReadNewestKeeps(v, h, cap);
        }
      case Forgotten =>
      case Evicted(ids) =>
      case Fetched(ids) =>
    }
  }

  lemma {:induction false} EveryHistoryKeeps(v: Vault, events: seq<Event>)
    requires IsVault(v)
    ensures IsHistory(v, Run(v, events))
  {
    if events != [] {
      EveryHistoryKeeps(v, events[..|events| - 1]);
      NextKeeps(v, Run(v, events[..|events| - 1]), events[|events| - 1]);
    }
  }

  // ---- Reading the newest version back ------------------------------------

  /** What reading the directory bundle named `p` gives. */
  function ReadDirectory(r: Reader, p: PartPath, max: nat): Answer {
    match r.load(p)
    case Held(Dir(top)) => Resolved(r, top, max).answer
    case Held(Single(_)) => Failed(MalformedBundle)
    case Absent(ids) => Lacking(ids)
    case Refused(error) => Failed(error)
  }

  /** Whether every bundle read for `p` is within what a reader decompresses. */
  ghost predicate WhollySmall(v: Vault, p: PartPath, cap: nat) {
    && (Ideal(v).load(p).Held? ==> v.plainBytes(Ideal(v).load(p).bundle) <= cap)
    && Small(v, ExtensionsOf(Ideal(v), p), cap)
  }

  /**
   After every history the newest bundle holds exactly the newest version's entries, and a
   reader gets them exactly when no bundle it reads is larger than it decompresses.
   */
  lemma NewestReadsBack(v: Vault, events: seq<Event>, cap: nat, max: nat)
    requires IsVault(v) && Run(v, events).newest.Some?
    requires max >= Run(v, events).newest.value.stored.layering.extensions
    ensures var h := Run(v, events);
            var n := h.newest.value;
            && Present(Contents(v, n.stored.path)) == n.entries
            && (ReadDirectory(ReaderOf(v, h.ever, cap), n.stored.path, max) == Overlaid(n.entries) <==>
                WhollySmall(v, n.stored.path, cap))
  {
    EveryHistoryKeeps(v, events);
    var h := Run(v, events);
    var n := h.newest.value;
    var p, r := n.stored.path, ReaderOf(v, h.ever, cap);
    var top := Ideal(v).load(p).bundle.directory;
    if WhollySmall(v, p, cap) {
      HeldAsIdeal(v, h.ever, cap, p);
      WithinMore(v, top.extensions, n.stored.layering.extensions, max);
      ReadsBack(v, h.ever, cap, max, p, top);
    } else if HeldDirectory(r, p) {
      ReadsIdeally(v, h.ever, cap, p);
      if Resolved(r, top, max).answer.Overlaid? {
        OverlaidIsContents(v, h.ever, cap, max, p, top);
      }
    }
  }

  lemma WithinMore(v: Vault, names: seq<string>, some: nat, most: nat)
    requires ReachesAtMost(v, names, some) && some <= most
    ensures ReachesAtMost(v, names, most)
  {
    var within :| |within| <= some && ReachesWithin(v, names, within);
    assert |within| <= most && ReachesWithin(v, names, within);
  }

  /**
   Writer and reader agree on their limits: what is stored keeps within the writer's, lists
   the layers it counts, and is never refused by a reader that follows as many extensions.
   */
  lemma NewestKeepsWithinLimits(v: Vault, events: seq<Event>, cap: nat, max: nat)
    requires IsVault(v) && Run(v, events).newest.Some?
    requires max >= Run(v, events).newest.value.stored.layering.extensions
    ensures var h := Run(v, events);
            var n := h.newest.value;
            var extensions := ExtensionsOf(Ideal(v), n.stored.path);
            && n.stored.layering.layers <= n.limits.maxLayers
            && n.stored.layering.extensions <= n.limits.maxExtensions
            && |n.stored.beneath| == n.stored.layering.layers && EndsWith(extensions, n.stored.beneath)
            && ReachesAtMost(v, extensions, n.stored.layering.extensions)
            && ReadDirectory(ReaderOf(v, h.ever, cap), n.stored.path, max) != Answer.TooManyExtensions
  {
    EveryHistoryKeeps(v, events);
    var h := Run(v, events);
    var n := h.newest.value;
    NeverTooManyRead(v, h.ever, cap, n.stored.path, max, n.stored.layering.extensions);
  }

  lemma NeverTooManyRead(v: Vault, sink: Sink, cap: nat, p: PartPath, max: nat, most: nat)
    requires IsVault(v) && Genuine(v, sink) && ReachesAtMost(v, ExtensionsOf(Ideal(v), p), most) && most <= max
    ensures ReadDirectory(ReaderOf(v, sink, cap), p, max) != Answer.TooManyExtensions
  {
    var r := ReaderOf(v, sink, cap);
    ReadsIdeally(v, sink, cap, p);
    if HeldDirectory(r, p) {
      NeverTooMany(v, sink, cap, r.load(p).bundle.directory, max, most);
    }
  }

  lemma NeverTooMany(v: Vault, sink: Sink, cap: nat, top: Directory, max: nat, most: nat)
    requires IsVault(v) && Genuine(v, sink) && ReachesAtMost(v, top.extensions, most) && most <= max
    ensures Resolved(ReaderOf(v, sink, cap), top, max).answer != Answer.TooManyExtensions
  {
    var r := ReaderOf(v, sink, cap);
    ResolvedAnswers(r, top, max);
    RealReach(v, sink, cap, top.extensions);
    var within :| |within| <= most && ReachesWithin(v, top.extensions, within);
    if Resolved(r, top, max).answer.TooManyExtensions? {
      var ps :| |ps| == max + 1 && Unique(ps) && forall p :: p in ps ==> Reachable(r, top.extensions, p);
      UniqueWithin(ps, within);
    }
  }
}
