/**
 Backing a directory up, look after look: what is published, what is held back, and what
 is kept expanded, with a crash allowed between the two files saved.
 */
module Backups {
  import opened Wrappers
  import opened PartPaths
  import opened Shapes
  import opened Overlay
  import opened Reach
  import opened Vaults
  import opened Reading
  import opened Storing
  import opened Layerings
  import opened Histories
  import opened Outlines

  type Digest = string

  datatype LatestBackup = LatestBackup(
    bundle: ContentId,
    madeAt: real,
    entriesDigest: Digest,
    skipped: nat,
    layering: Option<Layering>)

  /** What backing up made: `expanded` replaces what is kept expanded, unless that is right already. */
  datatype Backup = Backup(latest: LatestBackup, expanded: Option<Superseded>)

  /** What a node backs up with: its vault, its digest of entries, and its limits. */
  datatype Node = Node(v: Vault, digest: map<string, Entry> -> Digest, maxObjectBytes: nat, limits: Limits, cap: nat)

  ghost predicate IsNode(n: Node) {
    IsVault(n.v) && forall e, f :: n.digest(e) == n.digest(f) ==> e == f
  }

  /** What a look found in the directory, and whether a change to metadata alone is asked for. */
  datatype Found = Found(entries: map<string, Entry>, skipped: nat, madeAt: real, publish: bool)

  predicate ChangesContent(s: Superseded, entries: map<string, Entry>) {
    Outline(s.entries) != Outline(entries)
  }

  /** The latest bundle with what changed of it held back; `None` for what is to be published. */
  function Kept(n: Node, latest: LatestBackup, earlier: Option<Superseded>, found: Found): Option<Superseded> {
    if earlier.None? then
      if n.digest(found.entries) == latest.entriesDigest then Some(Unlayered(Plain(latest.bundle), found.entries))
      else None
    else
      var s := earlier.value;
      if found.entries == s.entries then Some(s.(heldBack := map[]))
      else if found.publish then None
      else if found.entries == Seen(s) then Some(s)
      else if ChangesContent(s, found.entries) then None
      else Some(s.(heldBack := Changes(s.entries, Lifted(found.entries))))
  }

  function VersionOf(n: Node, latest: Option<LatestBackup>, entries: map<string, Entry>): Directory {
    Directory(Lifted(entries), NO_METADATA,
              if latest.None? then [] else [n.v.text(Plain(latest.value.bundle))], [])
  }

  const UNENCRYPTED := false

  function Earlier(n: Node, latest: Option<LatestBackup>, expanded: Option<Superseded>, sink: Sink): Option<Superseded> {
    if latest.None? || expanded.Some? then expanded
    else Read(ReaderOf(n.v, sink, n.cap), latest.value.bundle, latest.value.layering)
  }

  function Publish(n: Node, latest: Option<LatestBackup>, earlier: Option<Superseded>, found: Found, sink: Sink)
    : Attempt<Backup>
  {
    var w := Writing(UNENCRYPTED, n.maxObjectBytes);
    var after := StoreVersion(n.v, earlier, sink, VersionOf(n, latest, found.entries), w, n.limits);
    if after.stored.None? then Attempt(None, after.sink)
    else
      var stored := after.stored.value;
      Attempt(Some(Backup(LatestBackup(stored.path.contentId, found.madeAt, n.digest(found.entries), found.skipped,
                                       Some(stored.layering)),
                          Some(Expanded(stored, found.entries)))),
              after.sink)
  }

  function BackUp(n: Node, latest: Option<LatestBackup>, expanded: Option<Superseded>, found: Found, sink: Sink)
    : Attempt<Backup>
  {
    var earlier := Earlier(n, latest, expanded, sink);
    var kept := if latest.None? then None else Kept(n, latest.value, earlier, found);
    if kept.Some? then
      Attempt(Some(Backup(latest.value.(skipped := found.skipped), if kept == expanded then None else kept)), sink)
    else Publish(n, latest, earlier, found, sink)
  }

  /** What is on disk: a job's record, the bundle it keeps expanded, what is held, and all ever written. */
  datatype Disk = Disk(latest: Option<LatestBackup>, expanded: Option<Superseded>, sink: Sink, ever: Sink)

  /** What is kept expanded, if it is the job's latest bundle. */
  function LoadExpanded(d: Disk): Option<Superseded> {
    if d.latest.Some? && d.expanded.Some? && d.expanded.value.path.contentId == d.latest.value.bundle then d.expanded
    else None
  }

  datatype Crash = NoCrash | BeforeExpanded | BeforeLatest

  function SaveExpanded(d: Disk, backup: Backup): Disk {
    if backup.expanded.None? then d else d.(expanded := backup.expanded)
  }

  function Attempted(n: Node, d: Disk, found: Found): Attempt<Backup> {
    BackUp(n, d.latest, LoadExpanded(d), found, d.sink)
  }

  /** What is saved of what was made: the expanded bundle first, and then the job's record. */
  function Saved(d: Disk, made: Attempt<Backup>, crash: Crash): Disk {
    var written := d.(sink := made.sink, ever := d.ever + made.sink);
    if made.stored.None? || crash == BeforeExpanded then written
    else
      var expanded := SaveExpanded(written, made.stored.value);
      if crash == BeforeLatest then expanded else expanded.(latest := Some(made.stored.value.latest))
  }

  function Look(n: Node, d: Disk, found: Found, crash: Crash): Disk {
    Saved(d, Attempted(n, d, found), crash)
  }

  predicate Completes(n: Node, d: Disk, found: Found, crash: Crash) {
    crash == NoCrash && Attempted(n, d, found).stored.Some?
  }

  /** The expanded bundle and the job's record, each in a file of its own. */
  class JobFiles {
    var latest: Option<LatestBackup>
    var expanded: Option<Superseded>

    constructor ()
      ensures latest == None && expanded == None
    {
      latest, expanded := None, None;
    }

    /** Looks at a job, stopping early where `crash` says; storing may fail as well. */
    method LookAt(n: Node, sink: ContentSink, ghost ever: Sink, found: Found, crash: Crash)
      modifies this, sink
      ensures var d := Look(n, Disk(old(latest), old(expanded), old(sink.objects), ever), found, crash);
              latest == d.latest && expanded == d.expanded && sink.objects == d.sink
    {
      var kept := if latest.Some? && expanded.Some? && expanded.value.path.contentId == latest.value.bundle
        then expanded else None;
      var backup := Make(n, sink, latest, kept, found);
      if backup.None? || crash == BeforeExpanded {
        return;
      }
      if backup.value.expanded.Some? {
        expanded := backup.value.expanded;
      }
      if crash == BeforeLatest {
        return;
      }
      if Some(backup.value.latest) != latest {
        latest := Some(backup.value.latest);
      }
    }
  }

  method Make(n: Node, sink: ContentSink, latest: Option<LatestBackup>, expanded: Option<Superseded>, found: Found)
    returns (backup: Option<Backup>)
    modifies sink
    ensures Attempt(backup, sink.objects) == BackUp(n, latest, expanded, found, old(sink.objects))
  {
    var earlier := Earlier(n, latest, expanded, sink.objects);
    if latest.Some? {
      var kept := Kept(n, latest.value, earlier, found);
      if kept.Some? {
        return Some(Backup(latest.value.(skipped := found.skipped), if kept == expanded then None else kept));
      }
    }
    var version := VersionOf(n, latest, found.entries);
    var stored := WriteVersion(n.v, earlier, sink, version, Writing(UNENCRYPTED, n.maxObjectBytes), n.limits);
    if stored.None? {
      return None;
    }
    return Some(Backup(LatestBackup(stored.value.path.contentId, found.madeAt, n.digest(found.entries), found.skipped,
                                    Some(stored.value.layering)),
                       Some(Expanded(stored.value, found.entries))));
  }

  // ---- What every run keeps -----------------------------------------------

  /** What is kept expanded says truly what its bundle holds, and holds back metadata alone. */
  ghost predicate IsKept(v: Vault, s: Superseded)
    requires IsVault(v)
  {
    IsSuperseded(v, s) && s.path == Plain(s.path.contentId) && SameContent(s.entries, Seen(s))
  }

  ghost predicate IsLatest(n: Node, ever: Sink, latest: LatestBackup)
    requires IsNode(n)
  {
    var p := Plain(latest.bundle);
    var extensions := ExtensionsOf(Ideal(n.v), p);
    && HeldDirectory(Ideal(n.v), p) && Followable(n.v, extensions) && WhollyKept(n.v, ever, p)
    && latest.entriesDigest == n.digest(Present(Contents(n.v, p)))
    && (latest.layering.Some? ==>
          && latest.layering.value.layers <= latest.layering.value.extensions
          && ReachesAtMost(n.v, extensions, latest.layering.value.extensions))
  }

  ghost predicate IsDisk(n: Node, d: Disk)
    requires IsNode(n)
  {
    && Genuine(n.v, d.ever) && Grows(d.sink, d.ever)
    && (d.latest.Some? ==> IsLatest(n, d.ever, d.latest.value))
    && (d.expanded.Some? ==> IsKept(n.v, d.expanded.value))
  }

  /** What a completed look leaves: kept expanded, the latest bundle with all that was seen. */
  ghost predicate Settled(n: Node, d: Disk, entries: map<string, Entry>)
    requires IsNode(n)
  {
    && d.latest.Some? && d.expanded.Some?
    && d.expanded.value.path == Plain(d.latest.value.bundle)
    && Present(Contents(n.v, d.expanded.value.path)) == d.expanded.value.entries
    && Seen(d.expanded.value) == entries
    && SameContent(d.expanded.value.entries, entries)
  }

  lemma SeenOfChanges(s: Superseded, entries: map<string, Entry>)
    ensures Seen(s.(heldBack := Changes(s.entries, Lifted(entries)))) == entries
  {
    var changes := Changes(s.entries, Lifted(entries));
    PresentOfLifted(s.entries);
    PresentOfLifted(entries);
    PresentOfChanges(Lifted(s.entries), s.entries, Lifted(entries));
    if changes == map[] {
      assert Lifted(s.entries) + changes == Lifted(s.entries);
    }
  }

  /** Keeping the latest bundle keeps it truly, with all that was found. */
  lemma KeptIsKept(n: Node, latest: LatestBackup, earlier: Option<Superseded>, found: Found, ever: Sink)
    requires IsNode(n) && IsLatest(n, ever, latest) && Kept(n, latest, earlier, found).Some?
    requires earlier.Some? ==> IsKept(n.v, earlier.value) && earlier.value.path == Plain(latest.bundle)
    ensures var s := Kept(n, latest, earlier, found).value;
            && IsKept(n.v, s) && s.path == Plain(latest.bundle)
            && Seen(s) == found.entries && SameContent(s.entries, found.entries)
  {
    if earlier.None? {
      assert found.entries == Present(Contents(n.v, Plain(latest.bundle)));
    } else {
      var s := earlier.value;
      SeenOfChanges(s, found.entries);
      OutlinesTell(s.entries, found.entries);
    }
  }

  /** What a look starts from is the latest bundle, kept expanded or read back. */
  lemma EarlierIsKept(n: Node, d: Disk)
    requires IsNode(n) && IsDisk(n, d) && d.latest.Some?
    ensures var earlier := Earlier(n, d.latest, LoadExpanded(d), d.sink);
            earlier.Some? ==> IsKept(n.v, earlier.value) && earlier.value.path == Plain(d.latest.value.bundle)
  {
    if LoadExpanded(d).None? {
      ReadIsSuperseded(n.v, d.sink, n.cap, d.latest.value.bundle, d.latest.value.layering);
    }
  }

  lemma PublishedIsLatest(n: Node, d: Disk, earlier: Option<Superseded>, found: Found)
    requires IsNode(n) && IsDisk(n, d)
    requires earlier.Some? ==> IsKept(n.v, earlier.value) && d.latest.Some? && earlier.value.path == Plain(d.latest.value.bundle)
    ensures var made := Publish(n, d.latest, earlier, found, d.sink);
            && Genuine(n.v, d.ever + made.sink) && Grows(made.sink, d.ever + made.sink) && Grows(d.ever, d.ever + made.sink)
            && (made.stored.Some? ==>
                  && IsLatest(n, d.ever + made.sink, made.stored.value.latest)
                  && made.stored.value.expanded.Some?
                  && IsKept(n.v, made.stored.value.expanded.value)
                  && made.stored.value.expanded.value.path == Plain(made.stored.value.latest.bundle)
                  && Seen(made.stored.value.expanded.value) == found.entries
                  && made.stored.value.expanded.value.entries == found.entries)
  {
    var w := Writing(UNENCRYPTED, n.maxObjectBytes);
    var version := VersionOf(n, d.latest, found.entries);
    var after := StoreVersion(n.v, earlier, d.sink, version, w, n.limits);
    var ever := d.ever + after.sink;
    PresentOfLifted(found.entries);
    StoreVersionStores(n.v, earlier, d.sink, version, w, n.limits, ever);
    JoinedSinks(n.v, d.sink, d.ever, after.sink);
    if after.stored.Some? {
      StoredPlainly(n, earlier, d.sink, version);
    }
  }

  /** Nothing stored unencrypted is named with a key. */
  lemma StoredPlainly(n: Node, earlier: Option<Superseded>, sink: Sink, version: Directory)
    requires IsNode(n) && Genuine(n.v, sink)
    ensures var after := StoreVersion(n.v, earlier, sink, version, Writing(UNENCRYPTED, n.maxObjectBytes), n.limits);
            after.stored.Some? ==> after.stored.value.path == Plain(after.stored.value.path.contentId)
  {
    var w := Writing(UNENCRYPTED, n.maxObjectBytes);
    var from := sink;
    if earlier.Some? && MayLayer(earlier.value, w, n.limits) {
      var layer := LayerOf(n.v, earlier.value, version);
      StoreDirectoryStores(n.v, sink, layer, w, LayerMost(earlier.value, layer, n.limits));
      from := StoreDirectory(n.v, sink, layer, w, LayerMost(earlier.value, layer, n.limits)).sink;
    }
    StoreDirectoryStores(n.v, from, version, w, n.limits.maxExtensions);
  }

  lemma {:induction false} LatestLasts(n: Node, ever: Sink, later: Sink, latest: LatestBackup)
    requires IsNode(n) && IsLatest(n, ever, latest) && Grows(ever, later)
    ensures IsLatest(n, later, latest)
  {
  }

  /** What a look made, that leaves the disk true wherever saving it stops. */
  ghost predicate IsMade(n: Node, d: Disk, made: Attempt<Backup>, entries: map<string, Entry>)
    requires IsNode(n)
  {
    var ever := d.ever + made.sink;
    && Genuine(n.v, ever) && Grows(made.sink, ever) && Grows(d.ever, ever)
    && (made.stored.Some? ==>
          var backup := made.stored.value;
          var s := if backup.expanded.Some? then backup.expanded else d.expanded;
          && IsLatest(n, ever, backup.latest)
          && s.Some? && IsKept(n.v, s.value)
          && s.value.path == Plain(backup.latest.bundle)
          && Seen(s.value) == entries && SameContent(s.value.entries, entries))
  }

  lemma SavedIsDisk(n: Node, d: Disk, made: Attempt<Backup>, entries: map<string, Entry>, crash: Crash)
    requires IsNode(n) && IsDisk(n, d) && IsMade(n, d, made, entries)
    ensures IsDisk(n, Saved(d, made, crash))
  {
    if d.latest.Some? {
      LatestLasts(n, d.ever, d.ever + made.sink, d.latest.value);
    }
  }

  lemma SavedKeeps(n: Node, d: Disk, made: Attempt<Backup>, entries: map<string, Entry>, crash: Crash)
    requires IsNode(n) && IsDisk(n, d) && IsMade(n, d, made, entries)
    ensures IsDisk(n, Saved(d, made, crash))
    ensures made.stored.Some? && crash == NoCrash ==> Settled(n, Saved(d, made, crash), entries)
  {
    SavedIsDisk(n, d, made, entries, crash);
  }

  lemma LookMakes(n: Node, d: Disk, found: Found)
    requires IsNode(n) && IsDisk(n, d)
    ensures IsMade(n, d, Attempted(n, d, found), found.entries)
  {
    var earlier := Earlier(n, d.latest, LoadExpanded(d), d.sink);
    if d.latest.Some? {
      EarlierIsKept(n, d);
    }
    if d.latest.Some? && Kept(n, d.latest.value, earlier, found).Some? {
      KeptIsKept(n, d.latest.value, earlier, found, d.ever);
      assert d.ever + d.sink == d.ever;
    } else {
      PublishedIsLatest(n, d, earlier, found);
    }
  }

  /** Wherever a look ends, what it leaves is true; and a look that completes leaves all it saw. */
  lemma LookKeeps(n: Node, d: Disk, found: Found, crash: Crash)
    requires IsNode(n) && IsDisk(n, d)
    ensures IsDisk(n, Look(n, d, found, crash))
    ensures Completes(n, d, found, crash) ==> Settled(n, Look(n, d, found, crash), found.entries)
  {
    LookMakes(n, d, found);
    SavedKeeps(n, d, Attempted(n, d, found), found.entries, crash);
  }

  // ---- Runs ---------------------------------------------------------------

  /** `Spoiled` loses what is kept expanded, and `Written` is other content stored beside. */
  datatype Event =
    | Looked(found: Found, crash: Crash)
    | Spoiled
    | Evicted(ids: set<ContentId>)
    | Fetched(ids: set<ContentId>)
    | Written(o: Object)

  function After(n: Node, d: Disk, event: Event): Disk {
    match event
    case Looked(found, crash) => Look(n, d, found, crash)
    case Spoiled => d.(expanded := None)
    case Evicted(ids) => d.(sink := d.sink - ids)
    case Fetched(ids) => d.(sink := d.sink + (map id | id in ids && id in d.ever :: d.ever[id]))
    case Written(o) =>
      d.(sink := d.sink[n.v.address(o) := o], ever := d.ever[n.v.address(o) := o])
  }

  const NOTHING_BACKED_UP := Disk(None, None, map[], map[])

  function RunOf(n: Node, events: seq<Event>): Disk {
    if events == [] then NOTHING_BACKED_UP
    else After(n, RunOf(n, events[..|events| - 1]), events[|events| - 1])
  }

  lemma AfterKeeps(n: Node, d: Disk, event: Event)
    requires IsNode(n) && IsDisk(n, d)
    ensures IsDisk(n, After(n, d, event))
  {
    match event {
      case Looked(found, crash) => LookKeeps(n, d, found, crash);
      case Spoiled =>
      case Evicted(ids) =>
      case Fetched(ids) =>
      case Written(o) => WrittenKeeps(n, d, event);
    }
  }

  lemma WrittenKeeps(n: Node, d: Disk, event: Event)
    requires IsNode(n) && IsDisk(n, d) && event.Written?
    ensures IsDisk(n, After(n, d, event))
  {
    var o := event.o;
    var id := n.v.address(o);
    assert id in d.ever ==> n.v.address(d.ever[id]) == id;
    assert Grows(d.ever, d.ever[id := o]);
    if d.latest.Some? {
      LatestLasts(n, d.ever, d.ever[id := o], d.latest.value);
    }
  }

  lemma {:induction false} EveryRunKeeps(n: Node, events: seq<Event>)
    requires IsNode(n)
    ensures IsDisk(n, RunOf(n, events))
  {
    if events != [] {
      EveryRunKeeps(n, events[..|events| - 1]);
      AfterKeeps(n, RunOf(n, events[..|events| - 1]), events[|events| - 1]);
    }
  }

  /** Whatever crashed before, an expanded bundle that is used is the latest one, and agrees with it. */
  lemma UsedIsLatest(n: Node, events: seq<Event>)
    requires IsNode(n) && LoadExpanded(RunOf(n, events)).Some?
    ensures var d := RunOf(n, events);
            var s := LoadExpanded(d).value;
            && s.path == Plain(d.latest.value.bundle)
            && s.entries == Present(Contents(n.v, s.path))
            && SameContent(s.entries, Seen(s))
  {
    EveryRunKeeps(n, events);
  }

  /** After each completed look, what was seen is what was found, the bundle differing in metadata alone. */
  lemma LookSettles(n: Node, events: seq<Event>, found: Found)
    requires IsNode(n) && Completes(n, RunOf(n, events), found, NoCrash)
    ensures Settled(n, RunOf(n, events + [Looked(found, NoCrash)]), found.entries)
  {
    EveryRunKeeps(n, events);
    LookKeeps(n, RunOf(n, events), found, NoCrash);
    assert (events + [Looked(found, NoCrash)])[..|events|] == events;
  }

  /** Asked to publish, a look keeps a bundle only if it holds exactly what was found. */
  lemma PublishingMakesWhole(n: Node, d: Disk, found: Found)
    requires IsNode(n) && IsDisk(n, d) && found.publish
    requires Attempted(n, d, found).stored.Some?
    ensures var backup := Attempted(n, d, found).stored.value;
            var s := if backup.expanded.Some? then backup.expanded else d.expanded;
            s.Some? && s.value.entries == found.entries
  {
    var earlier := Earlier(n, d.latest, LoadExpanded(d), d.sink);
    if d.latest.Some? && Kept(n, d.latest.value, earlier, found).Some? {
      assert Kept(n, d.latest.value, earlier, found).value.entries == found.entries;
    }
  }

  lemma PublishedWhole(n: Node, d: Disk, next: Disk, found: Found)
    requires IsNode(n) && IsDisk(n, d) && Completes(n, d, found, NoCrash) && found.publish
    requires next == Look(n, d, found, NoCrash)
    ensures next.expanded.Some? && Present(Contents(n.v, next.expanded.value.path)) == found.entries
  {
    LookKeeps(n, d, found, NoCrash);
    PublishingMakesWhole(n, d, found);
  }

  /** A look asked to publish leaves nothing held back: the bundle holds exactly what was found. */
  lemma PublishingHoldsNothingBack(n: Node, events: seq<Event>, found: Found)
    requires IsNode(n) && Completes(n, RunOf(n, events), found, NoCrash) && found.publish
    ensures var d := RunOf(n, events + [Looked(found, NoCrash)]);
            d.expanded.Some? && Present(Contents(n.v, d.expanded.value.path)) == found.entries
  {
    var d := RunOf(n, events);
    EveryRunKeeps(n, events);
    PublishedWhole(n, d, After(n, d, Looked(found, NoCrash)), found);
    assert (events + [Looked(found, NoCrash)])[..|events|] == events;
  }
}
