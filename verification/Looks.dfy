/** What a look at a directory leaves: when its bundle is kept as it is, and what is published when not. */
module Looks {
  import opened Wrappers
  import opened PartPaths
  import opened Shapes
  import opened Overlay
  import opened Vaults
  import opened Reading
  import opened Storing
  import opened Storable
  import opened Layerings
  import opened Histories
  import opened Layered
  import opened Outlines
  import opened Backups

  /** Whether the latest bundle can be told from what is found: kept expanded, or all held here and small enough. */
  predicate AtHand(n: Node, d: Disk)
    requires d.latest.Some?
  {
    var bundle := d.latest.value.bundle;
    || (d.expanded.Some? && d.expanded.value.path.contentId == bundle)
    || ReadDirectory(ReaderOf(n.v, d.sink, n.cap), Plain(bundle), 1024).Overlaid?
  }

  /**
   Whether the latest bundle stays: what is found is what it holds, or differs in metadata
   alone, none of which is to be published now.
   */
  ghost predicate Stays(n: Node, d: Disk, found: Found)
    requires IsNode(n) && d.latest.Some?
  {
    var held := Present(Contents(n.v, Plain(d.latest.value.bundle)));
    || found.entries == held
    || (AtHand(n, d) && !found.publish && SameContent(held, found.entries))
  }

  /** What the latest bundle is known as, if it is at hand: as it is kept expanded, or else read back from its record. */
  function KnownAs(n: Node, d: Disk): Option<Superseded> {
    if d.latest.None? then None
    else if d.expanded.Some? && d.expanded.value.path.contentId == d.latest.value.bundle then d.expanded
    else Read(ReaderOf(n.v, d.sink, n.cap), d.latest.value.bundle, d.latest.value.layering)
  }

  lemma KnownIsEarlier(n: Node, d: Disk)
    ensures KnownAs(n, d) == Earlier(n, d.latest, LoadExpanded(d), d.sink)
    ensures d.latest.Some? ==> (KnownAs(n, d).Some? <==> AtHand(n, d))
  {
  }

  /** What is found as a version to store: superseding the latest bundle, and holding nothing else. */
  function VersionFound(n: Node, d: Disk, found: Found): Directory {
    Directory(Lifted(found.entries), NO_METADATA,
              if d.latest.None? then [] else [n.v.text(Plain(d.latest.value.bundle))], [])
  }

  lemma KeptExactly(n: Node, d: Disk, found: Found)
    requires IsNode(n) && IsDisk(n, d) && d.latest.Some?
    ensures Backups.Kept(n, d.latest.value, KnownAs(n, d), found).Some? <==> Stays(n, d, found)
  {
    KnownIsEarlier(n, d);
    EarlierIsKept(n, d);
    var held := Present(Contents(n.v, Plain(d.latest.value.bundle)));
    var known := KnownAs(n, d);
    if known.Some? {
      OutlinesTell(held, found.entries);
    } else {
      assert n.digest(found.entries) == n.digest(held) ==> found.entries == held;
    }
  }

  /** What a look that keeps the latest bundle leaves: the record and what is held as they were, but for what it skipped. */
  lemma StaysAsItWas(n: Node, d: Disk, found: Found)
    requires IsNode(n) && IsDisk(n, d) && d.latest.Some? && Stays(n, d, found)
    ensures Completes(n, d, found, NoCrash)
    ensures var after := Look(n, d, found, NoCrash);
            after.latest == Some(d.latest.value.(skipped := found.skipped)) && after.sink == d.sink
  {
    KnownIsEarlier(n, d);
    KeptExactly(n, d, found);
  }

  /** What a look that does not leaves: a version stored over what is known, its record, and it expanded. */
  ghost predicate Publishes(n: Node, d: Disk, found: Found, diff: Layer, after: Disk, stored: Option<StoredVersion>) {
    && StoresAsItMay(n.v, KnownAs(n, d), d.sink, VersionFound(n, d, found), Writing(false, n.maxObjectBytes), n.limits,
                     diff, stored, after.sink)
    && (stored.None? ==> after.latest == d.latest && after.expanded == d.expanded)
    && (stored.Some? ==>
          var s := stored.value;
          && after.latest == Some(LatestBackup(s.path.contentId, found.madeAt, n.digest(found.entries), found.skipped,
                                               Some(s.layering)))
          && after.expanded == Some(Superseded(s.path, found.entries, s.beneath, Some(s.layering), map[])))
  }

  lemma AttemptsToPublish(n: Node, d: Disk, found: Found) returns (made: Attempt<Backup>)
    requires IsNode(n) && IsDisk(n, d) && (d.latest.Some? ==> !Stays(n, d, found))
    ensures made == Publish(n, d.latest, KnownAs(n, d), found, d.sink) == Attempted(n, d, found)
    ensures Completes(n, d, found, NoCrash) <==> made.stored.Some?
    ensures Look(n, d, found, NoCrash) == Saved(d, made, NoCrash)
  {
    KnownIsEarlier(n, d);
    if d.latest.Some? {
      KeptExactly(n, d, found);
    }
    made := Publish(n, d.latest, KnownAs(n, d), found, d.sink);
  }

  lemma PublishesOtherwise(n: Node, d: Disk, found: Found, diff: Layer) returns (stored: Option<StoredVersion>)
    requires IsNode(n) && IsDisk(n, d) && (d.latest.Some? ==> !Stays(n, d, found))
    requires KnownAs(n, d).Some? ==> IsDiff(KnownAs(n, d).value.entries, Lifted(found.entries), diff)
    ensures Completes(n, d, found, NoCrash) <==> stored.Some?
    ensures Publishes(n, d, found, diff, Look(n, d, found, NoCrash), stored)
  {
    var made := AttemptsToPublish(n, d, found);
    DiskIsGenuine(n, d);
    var version, w := VersionFound(n, d, found), Writing(false, n.maxObjectBytes);
    VersionExactly(n.v, KnownAs(n, d), d.sink, version, w, n.limits, diff);
    stored := StoreVersion(n.v, KnownAs(n, d), d.sink, version, w, n.limits).stored;
  }

  lemma DiskIsGenuine(n: Node, d: Disk)
    requires IsNode(n) && IsDisk(n, d)
    ensures Genuine(n.v, d.sink)
  {
    forall id | id in d.sink
      ensures n.v.address(d.sink[id]) == id
    {
      assert d.ever[id] == d.sink[id];
    }
  }

  /** What is published is another bundle than the latest. */
  lemma PublishedIsAnother(n: Node, d: Disk, found: Found)
    requires IsNode(n) && IsDisk(n, d) && d.latest.Some? && !Stays(n, d, found) && Completes(n, d, found, NoCrash)
    ensures Look(n, d, found, NoCrash).latest.Some?
    ensures Look(n, d, found, NoCrash).latest.value.bundle != d.latest.value.bundle
  {
    var made := AttemptsToPublish(n, d, found);
    KnownIsEarlier(n, d);
    EarlierIsKept(n, d);
    PublishedIsLatest(n, d, KnownAs(n, d), found);
    assert Present(Contents(n.v, made.stored.value.expanded.value.path)) == found.entries;
  }

  /**
   After every run, a look that completes leaves the latest bundle, when it was made, its digest,
   where it sits and all that is held as they were if and only if what is found is what the
   bundle holds, or the bundle is at hand, only metadata differs and none is to be published.
   Otherwise another bundle is published.
   */
  lemma LookExactly(n: Node, events: seq<Backups.Event>, found: Found)
    requires IsNode(n) && RunOf(n, events).latest.Some?
    requires Completes(n, RunOf(n, events), found, NoCrash)
    ensures var d, after := RunOf(n, events), RunOf(n, events + [Looked(found, NoCrash)]);
            && after.latest.Some?
            && (Stays(n, d, found) ==>
                  after.latest.value == d.latest.value.(skipped := found.skipped) && after.sink == d.sink)
            && (after.latest.value.bundle == d.latest.value.bundle <==> Stays(n, d, found))
  {
    EveryRunKeeps(n, events);
    assert (events + [Looked(found, NoCrash)])[..|events|] == events;
    if Stays(n, RunOf(n, events), found) {
      StaysAsItWas(n, RunOf(n, events), found);
    } else {
      PublishedIsAnother(n, RunOf(n, events), found);
    }
  }

  /**
   After every run, a look that publishes does so over what is known of the latest bundle, as a
   layer or whole, and completes if and only if that can be stored.
   */
  lemma PublishedAsItMay(n: Node, events: seq<Backups.Event>, found: Found, diff: Layer)
    requires IsNode(n)
    requires var d := RunOf(n, events);
             && (d.latest.Some? ==> !Stays(n, d, found))
             && (KnownAs(n, d).Some? ==> IsDiff(KnownAs(n, d).value.entries, Lifted(found.entries), diff))
    ensures var d, after := RunOf(n, events), RunOf(n, events + [Looked(found, NoCrash)]);
            exists stored: Option<StoredVersion> ::
              Publishes(n, d, found, diff, after, stored) && (Completes(n, d, found, NoCrash) <==> stored.Some?)
  {
    EveryRunKeeps(n, events);
    assert (events + [Looked(found, NoCrash)])[..|events|] == events;
    var stored := PublishesOtherwise(n, RunOf(n, events), found, diff);
  }

  /**
   Wherever a look stops, the record never runs ahead of what is kept expanded: it changes only
   to name a bundle that is kept so already. Stopped before that is kept, or failing to store,
   neither changes.
   */
  lemma RecordNeverRunsAhead(n: Node, events: seq<Backups.Event>, found: Found, crash: Crash)
    requires IsNode(n)
    ensures var d, after := RunOf(n, events), RunOf(n, events + [Looked(found, crash)]);
            && (after.latest != d.latest ==>
                  crash == NoCrash && after.latest.Some? && after.expanded.Some? &&
                  after.expanded.value.path == Plain(after.latest.value.bundle))
            && (after.expanded != d.expanded ==> crash != BeforeExpanded)
  {
    EveryRunKeeps(n, events);
    assert (events + [Looked(found, crash)])[..|events|] == events;
    LookMakes(n, RunOf(n, events), found);
  }
}
