/** When a version is stored as a layer, and exactly what it is then; and when it is stored whole. */
module Layered {
  import opened Wrappers
  import opened PartPaths
  import opened Shapes
  import opened Overlay
  import opened Reach
  import opened Meaning
  import opened Splitting
  import opened Vaults
  import opened Reading
  import opened Storing
  import opened Storable
  import opened Layerings
  import opened Histories

  // ---- What changed -------------------------------------------------------

  /** What `entries` have at a path, a tombstone being nothing. */
  function Now(entries: Layer, path: string): Option<Entry> {
    if path in entries then entries[path] else None
  }

  function Then(before: map<string, Entry>, path: string): Option<Entry> {
    if path in before then Some(before[path]) else None
  }

  /** Whether `diff` has an entry exactly where `entries` are not as before, and what they are there. */
  ghost predicate IsDiff(before: map<string, Entry>, entries: Layer, diff: Layer) {
    forall path :: (path in diff <==> Then(before, path) != Now(entries, path)) &&
                   (path in diff ==> diff[path] == Now(entries, path))
  }

  /** What is stored as changed is that difference, and there is only one. */
  lemma ChangesAreTheDiff(before: map<string, Entry>, entries: Layer, diff: Layer)
    ensures IsDiff(before, entries, diff) <==> diff == Changes(before, entries)
  {
    var changes := Changes(before, entries);
    forall path
      ensures path in changes <==> Then(before, path) != Now(entries, path)
      ensures path in changes ==> changes[path] == Now(entries, path)
    {
      if path in before && path !in entries {
        assert path in before.Keys - entries.Keys;
      }
    }
    if IsDiff(before, entries, diff) {
      forall path
        ensures path in diff <==> path in changes
        ensures path in diff ==> diff[path] == changes[path]
      {
        assert path in diff <==> Then(before, path) != Now(entries, path);
      }
    }
  }

  // ---- Layered or whole ---------------------------------------------------

  /** A layer over `s`: what changed, over the bundle `s` is and all that it lies over. */
  function LayerOver(v: Vault, s: Superseded, version: Directory, diff: Layer): Directory {
    Directory(diff, version.metadata, version.versions, [v.text(s.path)] + s.beneath)
  }

  /** How many chunks and extensions a layer over `s` may have: as many chunks as a reader is left to follow. */
  function MostOver(s: Superseded, limits: Limits): int
    requires s.layering.Some?
  {
    limits.maxExtensions - s.layering.value.extensions + |s.beneath|
  }

  /**
   Whether a version may be a layer over `s`: where that sits is known, within both limits; no
   layer left unencrypted names its key; and the layer can be stored.
   */
  ghost predicate CanLayer(v: Vault, s: Superseded, sink: Sink, version: Directory, w: Writing, limits: Limits, diff: Layer) {
    && s.layering.Some? && s.layering.value.layers < limits.maxLayers
    && s.layering.value.extensions < limits.maxExtensions
    && (s.path.key.Some? ==> w.encrypted)
    && CanStore(v, sink, LayerOver(v, s, version, diff), w, MostOver(s, limits))
  }

  /** Whether `stored` is `directory`, split where it does not fit, over `beneath`. */
  ghost predicate IsStoredAs(v: Vault, sink: Sink, later: Sink, directory: Directory, w: Writing, stored: StoredVersion,
                             layers: nat, extensions: nat, beneath: seq<string>) {
    var o := Sealed(v, StoredForm(v, sink, directory, w), w);
    && stored.path == NameOf(v, o) && v.address(o) in later && later[v.address(o)] == o
    && stored.layering == Layering(layers, extensions + ChunkCount(v, sink, directory, w)) && stored.beneath == beneath
  }

  /** What storing a version over `superseded` is to do. */
  ghost predicate StoresAsItMay(v: Vault, superseded: Option<Superseded>, sink: Sink, version: Directory, w: Writing,
                                limits: Limits, diff: Layer, stored: Option<StoredVersion>, later: Sink) {
    if superseded.Some? && CanLayer(v, superseded.value, sink, version, w, limits, diff) then
      var s := superseded.value;
      && stored.Some?
      && IsStoredAs(v, sink, later, LayerOver(v, s, version, diff), w, stored.value,
                    s.layering.value.layers + 1, 1 + s.layering.value.extensions, [v.text(s.path)] + s.beneath)
    else
      && (stored.Some? <==> CanStore(v, sink, version, w, limits.maxExtensions))
      && (stored.Some? ==> IsStoredAs(v, sink, later, version, w, stored.value, 0, 0, []))
  }

  /** What can be stored can be over whatever small is stored before it, and is then stored alike. */
  lemma CanStoreStill(v: Vault, sink: Sink, later: Sink, bundle: Directory, w: Writing, maxExtensions: int)
    requires IsVault(v) && Genuine(v, later) && GrowsSmall(v, sink, later, w)
    ensures CanStore(v, later, bundle, w, maxExtensions) <==> CanStore(v, sink, bundle, w, maxExtensions)
    ensures StoredForm(v, later, bundle, w) == StoredForm(v, sink, bundle, w)
    ensures ChunkCount(v, later, bundle, w) == ChunkCount(v, sink, bundle, w)
  {
    var chunks := SplitPaths(v, bundle, w);
    var objects := ChunkObjects(v, bundle, chunks, w);
    FitsStill(v, sink, later, Sealed(v, bundle, w), w);
    FitsStill(v, sink, later, Sealed(v, Naming(v, bundle, objects), w), w);
    forall i | 0 <= i < |objects|
      ensures Fits(v, later, objects[i], w) <==> Fits(v, sink, objects[i], w)
    {
      FitsStill(v, sink, later, objects[i], w);
    }
  }

  lemma LayerExactly(v: Vault, s: Superseded, sink: Sink, version: Directory, w: Writing, limits: Limits, diff: Layer)
    requires IsVault(v) && Genuine(v, sink) && IsDiff(s.entries, version.entries, diff)
    ensures var after := StoreLayer(v, s, sink, version, w, limits);
            && (after.stored.Some? <==> CanLayer(v, s, sink, version, w, limits, diff))
            && (after.stored.Some? ==>
                  IsStoredAs(v, sink, after.sink, LayerOver(v, s, version, diff), w, after.stored.value,
                             s.layering.value.layers + 1, 1 + s.layering.value.extensions, [v.text(s.path)] + s.beneath))
            && Genuine(v, after.sink) && GrowsSmall(v, sink, after.sink, w)
  {
    ChangesAreTheDiff(s.entries, version.entries, diff);
    var layer := LayerOver(v, s, version, diff);
    assert LayerOf(v, s, version) == layer;
    if MayLayer(s, w, limits) {
      assert LayerMost(s, layer, limits) == MostOver(s, limits);
      StoredExactly(v, sink, layer, w, MostOver(s, limits));
    }
  }

  /**
   A version is stored as a layer if and only if it may be: one layer more, over the bundle
   superseded and what that lies over, with an entry exactly where it changed. Otherwise it is
   stored whole, if it can be.
   */
  lemma VersionExactly(v: Vault, superseded: Option<Superseded>, sink: Sink, version: Directory, w: Writing,
                       limits: Limits, diff: Layer)
    requires IsVault(v) && Genuine(v, sink)
    requires superseded.Some? ==> IsDiff(superseded.value.entries, version.entries, diff)
    ensures var after := StoreVersion(v, superseded, sink, version, w, limits);
            StoresAsItMay(v, superseded, sink, version, w, limits, diff, after.stored, after.sink)
  {
    var from := sink;
    if superseded.Some? {
      LayerExactly(v, superseded.value, sink, version, w, limits, diff);
      from := StoreLayer(v, superseded.value, sink, version, w, limits).sink;
    }
    WholeExactly(v, sink, from, version, w, limits);
  }

  lemma WholeExactly(v: Vault, sink: Sink, from: Sink, version: Directory, w: Writing, limits: Limits)
    requires IsVault(v) && Genuine(v, from) && GrowsSmall(v, sink, from, w)
    ensures var after := StoreWhole(v, from, version, w, limits);
            && (after.stored.Some? <==> CanStore(v, sink, version, w, limits.maxExtensions))
            && (after.stored.Some? ==> IsStoredAs(v, sink, after.sink, version, w, after.stored.value, 0, 0, []))
  {
    StoredExactly(v, from, version, w, limits.maxExtensions);
    CanStoreStill(v, sink, from, version, w, limits.maxExtensions);
  }

  /** A layer that fits in one object holds an entry exactly where the version changed, over what is beneath it. */
  lemma LayerHolds(v: Vault, s: Superseded, sink: Sink, later: Sink, version: Directory, w: Writing, diff: Layer,
                   stored: StoredVersion, layers: nat, extensions: nat)
    requires IsVault(v) && IsDiff(s.entries, version.entries, diff)
    requires Fits(v, sink, Sealed(v, LayerOver(v, s, version, diff), w), w)
    requires IsStoredAs(v, sink, later, LayerOver(v, s, version, diff), w, stored, layers, extensions, [v.text(s.path)] + s.beneath)
    ensures HeldDirectory(Ideal(v), stored.path)
    ensures forall path :: path in EntriesOf(Ideal(v), stored.path) <==> Then(s.entries, path) != Now(version.entries, path)
    ensures ExtensionsOf(Ideal(v), stored.path) == [v.text(s.path)] + s.beneath
    ensures stored.layering.extensions == extensions
  {
    NamedIs(v, Sealed(v, LayerOver(v, s, version, diff), w), stored.path);
  }

  // ---- In every history ---------------------------------------------------

  /** What the next version stored is a layer over, if that is known. */
  function Superseding(h: History): Option<Superseded> {
    if h.newest.None? then None else h.newest.value.superseded
  }

  /**
   In every history the next version is stored so over what is known of the newest; and what is
   then known is where it was stored, and all it holds. One that cannot be stored leaves the
   newest as it was.
   */
  lemma NextIsStoredAsItMay(v: Vault, events: seq<Event>, entries: map<string, Entry>, metadata: Metadata,
                            versions: seq<string>, w: Writing, limits: Limits, diff: Layer)
    requires IsVault(v)
    requires Superseding(Run(v, events)).Some? ==>
               IsDiff(Superseding(Run(v, events)).value.entries, Lifted(entries), diff)
    ensures var h, next := Run(v, events), Run(v, events + [Stored(entries, metadata, versions, w, limits)]);
            exists stored: Option<StoredVersion> ::
              && StoresAsItMay(v, Superseding(h), h.sink, Directory(Lifted(entries), metadata, versions, []), w, limits, diff,
                               stored, next.sink)
              && (stored.None? ==> next.newest == h.newest)
              && (stored.Some? ==>
                    next.newest == Some(Newest(stored.value, entries, limits,
                      Some(Superseded(stored.value.path, entries, stored.value.beneath, Some(stored.value.layering), map[])))))
  {
    var h, event := Run(v, events), Stored(entries, metadata, versions, w, limits);
    var version := Directory(Lifted(entries), metadata, versions, []);
    assert (events + [event])[..|events|] == events;
    EveryHistoryKeeps(v, events);
    SinkIsGenuine(v, h);
    VersionExactly(v, Superseding(h), h.sink, version, w, limits, diff);
    var after := StoreVersion(v, Superseding(h), h.sink, version, w, limits);
    assert Run(v, events + [event]) == StoreNext(v, h, version, entries, w, limits);
    assert StoresAsItMay(v, Superseding(h), h.sink, version, w, limits, diff, after.stored, after.sink);
  }

  lemma SinkIsGenuine(v: Vault, h: History)
    requires IsVault(v) && IsHistory(v, h)
    ensures Genuine(v, h.sink)
  {
    forall id | id in h.sink
      ensures v.address(h.sink[id]) == id
    {
      assert h.ever[id] == h.sink[id];
    }
  }

  // ---- Where a bundle sits, worked out again ------------------------------

  /** Where the first of the extensions that is a version superseded stands, or past them all. */
  predicate IsFirstSuperseded(top: Directory, first: nat) {
    && first <= |top.extensions| && (forall j :: 0 <= j < first ==> top.extensions[j] !in top.versions)
    && (first < |top.extensions| ==> top.extensions[first] in top.versions)
  }

  lemma {:induction false} FirstAmongIs(names: seq<string>, versions: seq<string>, first: nat)
    requires first <= |names| && (forall j :: 0 <= j < first ==> names[j] !in versions)
    requires first < |names| ==> names[first] in versions
    ensures FirstAmong(names, versions) == first
  {
    if first > 0 {
      FirstAmongIs(names[1..], versions, first - 1);
    }
  }

  /**
   Expanded, a bundle sits where what it lists says: on as many layers as it lists from the
   first version it supersedes on, reaching what a reader does, and holding what it means.
   Where one is listed twice, that is not known; where more are listed than reached, it is
   refused; where not all of it can be overlaid, it is not read.
   */
  lemma ExpandExactly(r: Reader, rank: Rank, p: PartPath, top: Directory, first: nat)
    requires Acyclic(r, rank) && IsFirstSuperseded(top, first)
    ensures var beneath := top.extensions[first..];
            && (Expand(r, p, top).Unreadable? <==> !exists reached :: OverlaidFrom(r, top, 1024, reached))
            && forall reached | OverlaidFrom(r, top, 1024, reached) ::
                 var entries := Present(Meant(r, rank, top));
                 Expand(r, p, top) ==
                 if exists i, j :: 0 <= i < j < |beneath| && beneath[i] == beneath[j] then
                   Known(Superseded(p, entries, [], None, map[]))
                 else if |reached| < |beneath| then Contradictory
                 else Known(Superseded(p, entries, beneath, Some(Layering(|beneath|, |reached|)), map[]))
  {
    var outcome := Resolved(r, top, 1024);
    FirstAmongIs(top.extensions, top.versions, first);
    ResolvedMeans(r, rank, top, 1024);
    OverlaidIffReached(r, top, 1024);
    forall reached | OverlaidFrom(r, top, 1024, reached)
      ensures outcome.answer.Overlaid? && |outcome.loads| == |reached|
    {
      OverlaysFrom(r, top, 1024, reached);
    }
  }

  lemma OverlaidIffReached(r: Reader, top: Directory, max: nat)
    ensures Resolved(r, top, max).answer.Overlaid? ==> exists reached :: OverlaidFrom(r, top, max, reached)
  {
    var outcome := Resolved(r, top, max);
    if outcome.answer.Overlaid? {
      ResolvedAnswers(r, top, max);
      LoadsWithin(outcome.loads);
      assert OverlaidFrom(r, top, max, set q | q in outcome.loads);
    }
  }

  /** Read back with a record of where it sits, a bundle sits there, unless it lists fewer extensions than that counts. */
  lemma ReadExactly(r: Reader, rank: Rank, id: ContentId, top: Directory, recorded: Option<Layering>)
    requires Acyclic(r, rank) && r.load(Plain(id)) == Held(Dir(top))
    ensures Read(r, id, recorded).None? <==> !exists reached :: OverlaidFrom(r, top, 1024, reached)
    ensures Read(r, id, recorded).Some? ==>
              var entries, size := Present(Meant(r, rank, top)), |top.extensions|;
              Read(r, id, recorded).value ==
              if recorded.Some? && recorded.value.layers <= size then
                Superseded(Plain(id), entries, top.extensions[size - recorded.value.layers..], recorded, map[])
              else Superseded(Plain(id), entries, [], None, map[])
  {
    ResolvedMeans(r, rank, top, 1024);
    OverlaidIffReached(r, top, 1024);
    forall reached | OverlaidFrom(r, top, 1024, reached)
      ensures Resolved(r, top, 1024).answer.Overlaid?
    {
      OverlaysFrom(r, top, 1024, reached);
    }
  }

  /** Read back from its record, where it can be, the newest version is known as when it was stored. */
  lemma RecordRecovers(v: Vault, events: seq<Event>, cap: nat)
    requires IsVault(v) && Run(v, events).newest.Some?
    requires var h := Run(v, events);
             var p := h.newest.value.stored.path;
             p == Plain(p.contentId) && ReadDirectory(ReaderOf(v, h.sink, cap), p, 1024).Overlaid?
    ensures var n, next := Run(v, events).newest.value, Run(v, events + [ReadAgain(cap)]);
            next.newest == Some(n.(superseded :=
              Some(Superseded(n.stored.path, n.entries, n.stored.beneath, Some(n.stored.layering), map[]))))
  {
    assert (events + [ReadAgain(cap)])[..|events|] == events;
    EveryHistoryKeeps(v, events);
    NewestRecovers(v, Run(v, events), cap);
  }

  lemma NewestRecovers(v: Vault, h: History, cap: nat)
    requires IsVault(v) && IsHistory(v, h) && h.newest.Some?
    requires var p := h.newest.value.stored.path;
             p == Plain(p.contentId) && ReadDirectory(ReaderOf(v, h.sink, cap), p, 1024).Overlaid?
    ensures var n := h.newest.value;
            Next(v, h, ReadAgain(cap)).newest == Some(n.(superseded :=
              Some(Superseded(n.stored.path, n.entries, n.stored.beneath, Some(n.stored.layering), map[]))))
  {
    var n, r := h.newest.value, ReaderOf(v, h.sink, cap);
    var p := n.stored.path;
    SinkIsGenuine(v, h);
    ReadsIdeally(v, h.sink, cap, p);
    var top := r.load(p).bundle.directory;
    OverlaidIsContents(v, h.sink, cap, 1024, p, top);
    ReadsAsRecorded(r, p.contentId, top, n.entries, n.stored.beneath, n.stored.layering);
  }

  lemma ReadsAsRecorded(r: Reader, id: ContentId, top: Directory, entries: map<string, Entry>, beneath: seq<string>,
                        layering: Layering)
    requires r.load(Plain(id)) == Held(Dir(top)) && Resolved(r, top, 1024).answer == Overlaid(entries)
    requires EndsWith(top.extensions, beneath) && |beneath| == layering.layers
    ensures Read(r, id, Some(layering)) == Some(Superseded(Plain(id), entries, beneath, Some(layering), map[]))
  {
  }

  /** Expanded again, the newest version is known if and only if it is read, and expanding it says where it sits. */
  lemma ExpandingKnows(v: Vault, events: seq<Event>, cap: nat)
    requires Run(v, events).newest.Some?
    ensures var h, next := Run(v, events), Run(v, events + [ExpandedAgain(cap)]);
            var n, r := h.newest.value, ReaderOf(v, h.sink, cap);
            var p := n.stored.path;
            && next.sink == h.sink && next.newest.Some? && next.newest.value == n.(superseded := next.newest.value.superseded)
            && (next.newest.value.superseded.Some? <==>
                HeldDirectory(r, p) && Expand(r, p, r.load(p).bundle.directory).Known?)
            && (next.newest.value.superseded.Some? ==>
                  Expand(r, p, r.load(p).bundle.directory) == Known(next.newest.value.superseded.value))
  {
    assert (events + [ExpandedAgain(cap)])[..|events|] == events;
  }
}
