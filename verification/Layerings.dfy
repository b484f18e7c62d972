/** Storing a directory's new version as a layer over the last, or whole. */
module Layerings {
  import opened Wrappers
  import opened PartPaths
  import opened Shapes
  import opened Overlay
  import opened Reach
  import opened Meaning
  import opened Vaults
  import opened Reading
  import opened Storing

  /** The layers above the last whole bundle, and the distinct extensions a reader follows. */
  datatype Layering = Layering(layers: nat, extensions: nat)

  /** A stored bundle, expanded; `heldBack` is what changed since in metadata alone. */
  datatype Superseded = Superseded(
    path: PartPath,
    entries: map<string, Entry>,
    beneath: seq<string>,
    layering: Option<Layering>,
    heldBack: Layer)

  datatype StoredVersion = StoredVersion(path: PartPath, layering: Layering, beneath: seq<string>)

  datatype Limits = Limits(maxLayers: nat, maxExtensions: nat)

  predicate IsLayering(layering: Layering, beneath: seq<string>) {
    |beneath| == layering.layers <= layering.extensions
  }

  function EntryAt(entries: map<string, Entry>, path: string): Option<Entry> {
    if path in entries then Some(entries[path]) else None
  }

  /** What `entries` change of `before`: each entry new or changed, and `None` for each gone. */
  function Changes(before: map<string, Entry>, entries: Layer): Layer {
    (map path | path in entries && EntryAt(before, path) != entries[path] :: entries[path]) +
    (map path | path in before.Keys - entries.Keys :: None)
  }

  /** Every entry as last seen: what is held, with what is held back overlaid. */
  function Seen(s: Superseded): map<string, Entry> {
    if s.heldBack == map[] then s.entries else Present(Lifted(s.entries) + s.heldBack)
  }

  function LayerOf(v: Vault, s: Superseded, version: Directory): Directory {
    version.(entries := Changes(s.entries, version.entries), extensions := [v.text(s.path)] + s.beneath)
  }

  /** Whether a layer may be written over `s` at all. */
  predicate MayLayer(s: Superseded, w: Writing, limits: Limits) {
    && s.layering.Some?
    && s.layering.value.layers < limits.maxLayers
    && (s.path.key.Some? ==> w.encrypted)
    && 1 + s.layering.value.extensions <= limits.maxExtensions
  }

  /** The most chunks and extensions a layer over `s` may have. */
  function LayerMost(s: Superseded, layer: Directory, limits: Limits): int
    requires s.layering.Some?
  {
    limits.maxExtensions - (1 + s.layering.value.extensions) + |layer.extensions|
  }

  /** What a layer is stored as, from the directory it was stored in. */
  function LayerFrom(v: Vault, s: Superseded, version: Directory, stored: StoredDirectory): StoredVersion
    requires s.layering.Some?
  {
    StoredVersion(stored.path,
                  Layering(s.layering.value.layers + 1, 1 + s.layering.value.extensions + stored.chunks),
                  LayerOf(v, s, version).extensions)
  }

  function StoreLayer(v: Vault, s: Superseded, sink: Sink, version: Directory, w: Writing, limits: Limits)
    : Attempt<StoredVersion>
  {
    if !MayLayer(s, w, limits) then Attempt(None, sink)
    else
      var layer := LayerOf(v, s, version);
      var stored := StoreDirectory(v, sink, layer, w, LayerMost(s, layer, limits));
      if stored.stored.None? then Attempt(None, stored.sink)
      else Attempt(Some(LayerFrom(v, s, version, stored.stored.value)), stored.sink)
  }

  function StoreWhole(v: Vault, sink: Sink, version: Directory, w: Writing, limits: Limits): Attempt<StoredVersion> {
    var whole := StoreDirectory(v, sink, version, w, limits.maxExtensions);
    if whole.stored.None? then Attempt(None, whole.sink)
    else Attempt(Some(StoredVersion(whole.stored.value.path, Layering(0, whole.stored.value.chunks), [])), whole.sink)
  }

  function StoreVersion(v: Vault, superseded: Option<Superseded>, sink: Sink, version: Directory, w: Writing, limits: Limits)
    : Attempt<StoredVersion>
  {
    if superseded.None? then StoreWhole(v, sink, version, w, limits)
    else
      var layered := StoreLayer(v, superseded.value, sink, version, w, limits);
      if layered.stored.Some? then layered else StoreWhole(v, layered.sink, version, w, limits)
  }

  method WriteLayer(v: Vault, s: Superseded, sink: ContentSink, version: Directory, w: Writing, limits: Limits)
    returns (stored: Option<StoredVersion>)
    modifies sink
    ensures Attempt(stored, sink.objects) == StoreLayer(v, s, old(sink.objects), version, w, limits)
  {
    if s.layering.None? || s.layering.value.layers >= limits.maxLayers {
      return None;
    }
    if s.path.key.Some? && !w.encrypted {
      return None;
    }
    var reached := 1 + s.layering.value.extensions;
    if reached > limits.maxExtensions {
      return None;
    }
    var layer := LayerOf(v, s, version);
    var layered := sink.WriteDirectory(v, layer, w, LayerMost(s, layer, limits));
    if layered.None? {
      return None;
    }
    return Some(LayerFrom(v, s, version, layered.value));
  }

  /** Stores a version in place, as a layer if the limits allow or else whole. */
  method WriteVersion(v: Vault, superseded: Option<Superseded>, sink: ContentSink, version: Directory,
                      w: Writing, limits: Limits)
    returns (stored: Option<StoredVersion>)
    modifies sink
    ensures Attempt(stored, sink.objects) == StoreVersion(v, superseded, old(sink.objects), version, w, limits)
  {
    if superseded.Some? {
      var layered := WriteLayer(v, superseded.value, sink, version, w, limits);
      if layered.Some? {
        return layered;
      }
    }
    var whole := sink.WriteDirectory(v, version, w, limits.maxExtensions);
    if whole.None? {
      return None;
    }
    return Some(StoredVersion(whole.value.path, Layering(0, whole.value.chunks), []));
  }

  function Expanded(stored: StoredVersion, entries: map<string, Entry>): Superseded {
    Superseded(stored.path, entries, stored.beneath, Some(stored.layering), map[])
  }

  // ---- What a superseded bundle is ----------------------------------------

  predicate EndsWith(names: seq<string>, last: seq<string>) {
    |last| <= |names| && names[|names| - |last|..] == last
  }

  /** `s` says truly what its bundle holds, and where it sits. */
  ghost predicate IsSuperseded(v: Vault, s: Superseded)
    requires IsVault(v)
  {
    var extensions := ExtensionsOf(Ideal(v), s.path);
    && Nameable(s.path) && HeldDirectory(Ideal(v), s.path)
    && Followable(v, extensions)
    && Present(Contents(v, s.path)) == s.entries
    && EndsWith(extensions, s.beneath)
    && match s.layering
       case None => s.beneath == []
       case Some(layering) => IsLayering(layering, s.beneath) && ReachesAtMost(v, extensions, layering.extensions)
  }

  lemma PresentOfChanges(beneath: Layer, before: map<string, Entry>, entries: Layer)
    requires Present(beneath) == before
    ensures Present(beneath + Changes(before, entries)) == Present(entries)
  {
    var layered := beneath + Changes(before, entries);
    forall path
      ensures path in Present(layered) <==> path in Present(entries)
      ensures path in Present(layered) ==> Present(layered)[path] == Present(entries)[path]
    {
      assert path in beneath && beneath[path].Some? <==> path in before;
      if path in entries && EntryAt(before, path) != entries[path] {
        assert Changes(before, entries)[path] == entries[path];
      } else if path in entries {
        assert path !in Changes(before, entries);
      }
    }
  }

  /** A layer's extensions lead to the bundle beneath it, and what that one leads to. */
  lemma LayerLeads(v: Vault, s: Superseded)
    requires IsVault(v) && IsSuperseded(v, s)
    ensures forall p :: Reachable(Ideal(v), [v.text(s.path)] + s.beneath, p) ==>
                          p == s.path || Reachable(Ideal(v), ExtensionsOf(Ideal(v), s.path), p)
    ensures forall name :: Listed(Ideal(v), [v.text(s.path)] + s.beneath, name) ==>
                             name == v.text(s.path) || Listed(Ideal(v), ExtensionsOf(Ideal(v), s.path), name)
  {
    var r, name := Ideal(v), v.text(s.path);
    ReachableFromEither(r, [name], s.beneath);
    ReachableThrough(r, name, s.path);
    ReachableFromMore(r, s.beneath, ExtensionsOf(r, s.path));
  }

  lemma LeadsOn(v: Vault, names: seq<string>, name: string, p: PartPath, extensions: seq<string>, most: nat)
    requires v.parse(name).Success? && HeldDirectory(Ideal(v), p)
    requires Followable(v, extensions) && ReachesAtMost(v, extensions, most)
    requires forall q :: Reachable(Ideal(v), names, q) ==> q == p || Reachable(Ideal(v), extensions, q)
    requires forall other :: Listed(Ideal(v), names, other) ==> other == name || Listed(Ideal(v), extensions, other)
    ensures Followable(v, names) && ReachesAtMost(v, names, 1 + most)
  {
    var within :| |within| <= most && ReachesWithin(v, extensions, within);
    assert ReachesWithin(v, names, within + {p});
  }

  lemma LayerReaches(v: Vault, s: Superseded)
    requires IsVault(v) && IsSuperseded(v, s) && s.layering.Some?
    ensures Followable(v, [v.text(s.path)] + s.beneath)
    ensures ReachesAtMost(v, [v.text(s.path)] + s.beneath, 1 + s.layering.value.extensions)
  {
    LayerLeads(v, s);
    LeadsOn(v, [v.text(s.path)] + s.beneath, v.text(s.path), s.path, ExtensionsOf(Ideal(v), s.path),
            s.layering.value.extensions);
  }

  /** What lies beneath a bundle is overlaid already once it is. */
  lemma LayerStacks(v: Vault, s: Superseded)
    requires IsVault(v) && IsSuperseded(v, s)
    ensures Stack(v, [v.text(s.path)] + s.beneath) == Contents(v, s.path)
  {
    IdealIsAcyclic(v);
    var r, rank := Ideal(v), RankOf(v);
    var extensions := ExtensionsOf(r, s.path);
    var above := extensions[..|extensions| - |s.beneath|];
    assert extensions == above + s.beneath;
    ChainOfConcat(r, rank, above, s.beneath);
    var names := [v.text(s.path)] + s.beneath;
    assert names[1..] == s.beneath;
    ChainStep(r, rank, names, s.path);
    assert Chain(r, rank, s.beneath).Keys <= Contents(v, s.path).Keys;
  }

  lemma JoinedReach(v: Vault, chunks: seq<string>, names: seq<string>, most: nat)
    requires Followable(v, chunks) && ReachesAtMost(v, chunks, |chunks|)
    requires Followable(v, names) && ReachesAtMost(v, names, most)
    ensures Followable(v, chunks + names) && ReachesAtMost(v, chunks + names, most + |chunks|)
  {
    ReachableFromEither(Ideal(v), chunks, names);
    var a :| |a| <= |chunks| && ReachesWithin(v, chunks, a);
    var b :| |b| <= most && ReachesWithin(v, names, b);
    assert ReachesWithin(v, chunks + names, a + b);
    assert |a + b| <= |a| + |b|;
  }

  /** A version as stored: what it holds, where it sits, and the limits it keeps within. */
  ghost predicate IsVersion(v: Vault, stored: StoredVersion, entries: map<string, Entry>, limits: Limits)
    requires IsVault(v)
  {
    && IsSuperseded(v, Expanded(stored, entries))
    && stored.layering.layers <= limits.maxLayers
    && stored.layering.extensions <= limits.maxExtensions
  }

  /** Whether `ever` holds the bundle at `p` and all it leads to. */
  ghost predicate WhollyKept(v: Vault, ever: Sink, p: PartPath) {
    p.contentId in ever && Kept(v, ever, ExtensionsOf(Ideal(v), p))
  }

  /** A layer over `s`, in however many chunks, sits where it says and holds the new version. */
  lemma LayerIsVersion(v: Vault, s: Superseded, sink: Sink, stored: StoredDirectory, version: Directory, limits: Limits,
                       chunks: seq<string>)
    requires IsVault(v) && IsSuperseded(v, s) && s.layering.Some?
    requires Nameable(stored.path) && HeldDirectory(Ideal(v), stored.path)
    requires ChunkNames(v, sink, stored, LayerOf(v, s, version), chunks)
    requires Contents(v, stored.path) ==
             Stack(v, LayerOf(v, s, version).extensions) + LayerOf(v, s, version).entries
    requires s.layering.value.layers < limits.maxLayers
    requires 1 + s.layering.value.extensions + stored.chunks <= limits.maxExtensions
    ensures IsVersion(v, LayerFrom(v, s, version, stored), Present(version.entries), limits)
  {
    var names := LayerOf(v, s, version).extensions;
    LayerReaches(v, s);
    LayerStacks(v, s);
    PresentOfChanges(Contents(v, s.path), s.entries, version.entries);
    JoinedReach(v, chunks, names, 1 + s.layering.value.extensions);
    assert (chunks + names)[|chunks|..] == names;
  }

  /** All that a layer leads to is kept wherever the bundle beneath it, and its chunks, are. */
  lemma LayerIsKept(v: Vault, s: Superseded, sink: Sink, ever: Sink, stored: StoredDirectory, version: Directory,
                    chunks: seq<string>)
    requires IsVault(v) && IsSuperseded(v, s) && s.layering.Some?
    requires ChunkNames(v, sink, stored, LayerOf(v, s, version), chunks)
    requires Grows(sink, ever) && stored.path.contentId in sink && WhollyKept(v, ever, s.path)
    ensures WhollyKept(v, ever, stored.path)
  {
    LayerLeads(v, s);
    ReachableFromEither(Ideal(v), chunks, LayerOf(v, s, version).extensions);
  }

  lemma LayerFromIsVersion(v: Vault, s: Superseded, sink: Sink, version: Directory, w: Writing, limits: Limits,
                           after: Attempt<StoredDirectory>)
    requires IsVault(v) && IsSuperseded(v, s) && MayLayer(s, w, limits) && after.stored.Some?
    requires Stores(v, sink, LayerOf(v, s, version), w, LayerMost(s, LayerOf(v, s, version), limits), after)
    ensures IsVersion(v, LayerFrom(v, s, version, after.stored.value), Present(version.entries), limits)
  {
    var stored := after.stored.value;
    assert 1 + s.layering.value.extensions + stored.chunks <= limits.maxExtensions;
    var chunks :| ChunkNames(v, after.sink, stored, LayerOf(v, s, version), chunks);
    LayerIsVersion(v, s, after.sink, stored, version, limits, chunks);
  }

  lemma LayerFromIsKept(v: Vault, s: Superseded, sink: Sink, ever: Sink, version: Directory, stored: StoredDirectory)
    requires IsVault(v) && IsSuperseded(v, s) && s.layering.Some?
    requires StoredOver(v, sink, stored, LayerOf(v, s, version))
    requires Grows(sink, ever) && WhollyKept(v, ever, s.path)
    ensures WhollyKept(v, ever, stored.path)
  {
    var chunks :| ChunkNames(v, sink, stored, LayerOf(v, s, version), chunks);
    LayerIsKept(v, s, sink, ever, stored, version, chunks);
  }

  lemma WholeIsVersion(v: Vault, sink: Sink, version: Directory, w: Writing, limits: Limits, ever: Sink,
                       after: Attempt<StoredDirectory>)
    requires IsVault(v) && version.extensions == [] && after.stored.Some?
    requires Stores(v, sink, version, w, limits.maxExtensions, after)
    ensures IsVersion(v, StoredVersion(after.stored.value.path, Layering(0, after.stored.value.chunks), []),
                      Present(version.entries), limits)
    ensures Grows(after.sink, ever) ==> WhollyKept(v, ever, after.stored.value.path)
  {
    var chunks :| ChunkNames(v, after.sink, after.stored.value, version, chunks);
    assert chunks + [] == chunks;
    EmptyStack(v, version.entries);
    assert EndsWith(chunks, []);
  }

  /** What an attempt to store a version is to have done. */
  ghost predicate StoresVersion(v: Vault, sink: Sink, entries: map<string, Entry>, limits: Limits,
                                after: Attempt<StoredVersion>)
    requires IsVault(v)
  {
    && Genuine(v, after.sink) && Grows(sink, after.sink)
    && (after.stored.Some? ==> IsVersion(v, after.stored.value, entries, limits))
  }

  /** What is kept of a version wherever what it grew from is kept. */
  ghost predicate KeepsVersion(v: Vault, superseded: Option<Superseded>, ever: Sink, after: Attempt<StoredVersion>) {
    after.stored.Some? && Grows(after.sink, ever) &&
    (superseded.Some? ==> WhollyKept(v, ever, superseded.value.path)) ==>
      WhollyKept(v, ever, after.stored.value.path)
  }

  lemma StoreLayerStores(v: Vault, s: Superseded, sink: Sink, version: Directory, w: Writing, limits: Limits, ever: Sink)
    requires IsVault(v) && Genuine(v, sink) && IsSuperseded(v, s)
    ensures StoresVersion(v, sink, Present(version.entries), limits, StoreLayer(v, s, sink, version, w, limits))
    ensures KeepsVersion(v, Some(s), ever, StoreLayer(v, s, sink, version, w, limits))
  {
    if MayLayer(s, w, limits) {
      var layer := LayerOf(v, s, version);
      StoreDirectoryStores(v, sink, layer, w, LayerMost(s, layer, limits));
      var after := StoreDirectory(v, sink, layer, w, LayerMost(s, layer, limits));
      if after.stored.Some? {
        LayerFromIsVersion(v, s, sink, version, w, limits, after);
        if Grows(after.sink, ever) && WhollyKept(v, ever, s.path) {
          LayerFromIsKept(v, s, after.sink, ever, version, after.stored.value);
        }
      }
    }
  }

  lemma StoreWholeStores(v: Vault, sink: Sink, version: Directory, w: Writing, limits: Limits, ever: Sink)
    requires IsVault(v) && Genuine(v, sink) && version.extensions == []
    ensures StoresVersion(v, sink, Present(version.entries), limits, StoreWhole(v, sink, version, w, limits))
    ensures KeepsVersion(v, None, ever, StoreWhole(v, sink, version, w, limits))
  {
    StoreDirectoryStores(v, sink, version, w, limits.maxExtensions);
    var after := StoreDirectory(v, sink, version, w, limits.maxExtensions);
    if after.stored.Some? {
      WholeIsVersion(v, sink, version, w, limits, ever, after);
    }
  }

  lemma EmptyStack(v: Vault, entries: Layer)
    requires IsVault(v)
    ensures Stack(v, []) + entries == entries
  {
    IdealIsAcyclic(v);
  }

  /** However it is stored, layered or whole, a stored version holds exactly its entries. */
  lemma StoreVersionStores(v: Vault, superseded: Option<Superseded>, sink: Sink, version: Directory,
                           w: Writing, limits: Limits, ever: Sink)
    requires IsVault(v) && Genuine(v, sink) && version.extensions == []
    requires superseded.Some? ==> IsSuperseded(v, superseded.value)
    ensures StoresVersion(v, sink, Present(version.entries), limits, StoreVersion(v, superseded, sink, version, w, limits))
    ensures KeepsVersion(v, superseded, ever, StoreVersion(v, superseded, sink, version, w, limits))
  {
    var from := sink;
    if superseded.Some? {
      StoreLayerStores(v, superseded.value, sink, version, w, limits, ever);
      from := StoreLayer(v, superseded.value, sink, version, w, limits).sink;
    }
    StoreWholeStores(v, from, version, w, limits, ever);
  }
}
