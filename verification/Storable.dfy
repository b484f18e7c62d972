/** When a directory can be stored, and exactly what storing it leaves. */
module Storable {
  import opened Wrappers
  import opened PartPaths
  import opened Shapes
  import opened Overlay
  import opened Meaning
  import opened Splitting
  import opened Vaults
  import opened Reading
  import opened Storing

  /** A directory as the object it is stored as: with the key its bundle gives it, if it is encrypted. */
  function Sealed(v: Vault, directory: Directory, w: Writing): Object {
    Object(Dir(directory), if w.encrypted then Some(v.keyOf(Dir(directory))) else None, DEFAULT_IV)
  }

  function NameOf(v: Vault, o: Object): PartPath {
    PartPath(v.address(o), o.key, o.iv)
  }

  /** Whether an object is stored: it can be protected, and is held already or small enough. */
  predicate Fits(v: Vault, sink: Sink, o: Object, w: Writing) {
    !v.refused(o.bundle, w.maxObjectBytes) && (v.address(o) in sink || v.storedBytes(o) <= w.maxObjectBytes)
  }

  /** The entries of `paths`, as a bundle of their own. */
  function ChunkOf(entries: Layer, paths: seq<string>): Directory {
    Directory(map path | path in paths && path in entries :: entries[path], NO_METADATA, [], [])
  }

  /** What a directory split at `chunks` is stored over: as many bundles, each with the entries of one. */
  function ChunkObjects(v: Vault, bundle: Directory, chunks: seq<seq<string>>, w: Writing): (objects: seq<Object>)
    ensures |objects| == |chunks|
  {
    seq(|chunks|, i requires 0 <= i < |chunks| => Sealed(v, ChunkOf(bundle.entries, chunks[i]), w))
  }

  /** What names them all, before what it extends already, with no entries but its own metadata and versions. */
  function Naming(v: Vault, bundle: Directory, objects: seq<Object>): Directory {
    Directory(map[], bundle.metadata, bundle.versions,
              seq(|objects|, i requires 0 <= i < |objects| => v.text(NameOf(v, objects[i]))) + bundle.extensions)
  }

  /** Whether a directory is stored split at `chunks`. */
  ghost predicate FitsSplit(v: Vault, sink: Sink, bundle: Directory, chunks: seq<seq<string>>, w: Writing, maxExtensions: int) {
    var objects := ChunkObjects(v, bundle, chunks, w);
    && |chunks| + |bundle.extensions| <= maxExtensions
    && (forall i :: 0 <= i < |objects| ==> Fits(v, sink, objects[i], w))
    && Fits(v, sink, Sealed(v, Naming(v, bundle, objects), w), w)
  }

  /** Where a directory too large for one object is split: leaving room for what storing a chunk adds. */
  function SplitPaths(v: Vault, bundle: Directory, w: Writing): seq<seq<string>> {
    ChunkPaths(v.sizing, bundle.entries, w.maxObjectBytes - (w.maxObjectBytes / 1024 + 64))
  }

  /** Whether a directory can be stored, whole or split. */
  ghost predicate CanStore(v: Vault, sink: Sink, bundle: Directory, w: Writing, maxExtensions: int) {
    || Fits(v, sink, Sealed(v, bundle, w), w)
    || FitsSplit(v, sink, bundle, SplitPaths(v, bundle, w), w, maxExtensions)
  }

  /** What a directory is stored as: whole where that fits, or else naming its chunks. */
  function StoredForm(v: Vault, sink: Sink, bundle: Directory, w: Writing): Directory {
    if Fits(v, sink, Sealed(v, bundle, w), w) then bundle
    else Naming(v, bundle, ChunkObjects(v, bundle, SplitPaths(v, bundle, w), w))
  }

  function ChunkCount(v: Vault, sink: Sink, bundle: Directory, w: Writing): nat {
    if Fits(v, sink, Sealed(v, bundle, w), w) then 0 else |SplitPaths(v, bundle, w)|
  }

  // ---- Storing objects ----------------------------------------------------

  /** `later` holds what `sink` does, and besides only objects small enough. */
  predicate GrowsSmall(v: Vault, sink: Sink, later: Sink, w: Writing) {
    && (forall id :: id in sink ==> id in later && later[id] == sink[id])
    && (forall id :: id in later && id !in sink ==> v.storedBytes(later[id]) <= w.maxObjectBytes)
  }

  /** What fits fits whatever small is stored before it, and no sooner. */
  lemma FitsStill(v: Vault, sink: Sink, later: Sink, o: Object, w: Writing)
    requires IsVault(v) && Genuine(v, later) && GrowsSmall(v, sink, later, w)
    ensures Fits(v, later, o, w) <==> Fits(v, sink, o, w)
  {
    var id := v.address(o);
    if id in later && id !in sink {
      assert v.address(later[id]) == v.address(o);
    }
  }

  lemma GrowsTwice(v: Vault, a: Sink, b: Sink, c: Sink, w: Writing)
    requires GrowsSmall(v, a, b, w) && GrowsSmall(v, b, c, w)
    ensures GrowsSmall(v, a, c, w)
  {
  }

  /** One object is stored if and only if it fits, and then held under its name. */
  lemma OneExactly(v: Vault, sink: Sink, directory: Directory, w: Writing)
    requires IsVault(v) && Genuine(v, sink)
    ensures var after, o := StoreOne(v, sink, directory, w), Sealed(v, directory, w);
            && after.stored == (if Fits(v, sink, o, w) then Some(NameOf(v, o)) else None)
            && after.sink == (if Fits(v, sink, o, w) then sink[v.address(o) := o] else sink)
            && Genuine(v, after.sink) && GrowsSmall(v, sink, after.sink, w)
  {
    var o := Sealed(v, directory, w);
    if v.address(o) in sink {
      assert v.address(sink[v.address(o)]) == v.address(o);
      assert sink[v.address(o) := o] == sink;
    }
  }

  ghost predicate AllFit(v: Vault, sink: Sink, objects: seq<Object>, w: Writing) {
    forall i :: 0 <= i < |objects| ==> Fits(v, sink, objects[i], w)
  }

  function ObjectsFor(v: Vault, chunks: seq<Layer>, w: Writing): (objects: seq<Object>)
    ensures |objects| == |chunks|
  {
    seq(|chunks|, i requires 0 <= i < |chunks| => Sealed(v, Directory(chunks[i], NO_METADATA, [], []), w))
  }

  function Names(v: Vault, objects: seq<Object>): seq<string> {
    seq(|objects|, i requires 0 <= i < |objects| => v.text(NameOf(v, objects[i])))
  }

  function WithObjects(v: Vault, sink: Sink, objects: seq<Object>): Sink
    decreases |objects|
  {
    if objects == [] then sink else WithObjects(v, sink[v.address(objects[0]) := objects[0]], objects[1..])
  }

  lemma {:induction false} ChunksExactly(v: Vault, sink: Sink, chunks: seq<Layer>, w: Writing)
    requires IsVault(v) && Genuine(v, sink)
    ensures var after, objects := StoreChunks(v, sink, chunks, w), ObjectsFor(v, chunks, w);
            && (after.stored.Some? <==> AllFit(v, sink, objects, w))
            && (after.stored.Some? ==>
                  after.stored.value == Names(v, objects) && after.sink == WithObjects(v, sink, objects))
            && Genuine(v, after.sink) && GrowsSmall(v, sink, after.sink, w)
    decreases |chunks|
  {
    if chunks != [] {
      var objects := ObjectsFor(v, chunks, w);
      var first := StoreOne(v, sink, Directory(chunks[0], NO_METADATA, [], []), w);
      OneExactly(v, sink, Directory(chunks[0], NO_METADATA, [], []), w);
      assert objects[1..] == ObjectsFor(v, chunks[1..], w);
      if first.stored.Some? {
        ChunksExactly(v, first.sink, chunks[1..], w);
        GrowsTwice(v, sink, first.sink, StoreChunks(v, first.sink, chunks[1..], w).sink, w);
        FirstFits(v, sink, first.sink, objects, w);
        assert Names(v, objects) == [v.text(NameOf(v, objects[0]))] + Names(v, objects[1..]);
      } else {
        assert !Fits(v, sink, objects[0], w);
      }
    }
  }

  lemma FirstFits(v: Vault, sink: Sink, later: Sink, objects: seq<Object>, w: Writing)
    requires IsVault(v) && Genuine(v, later) && GrowsSmall(v, sink, later, w)
    requires objects != [] && Fits(v, sink, objects[0], w)
    ensures AllFit(v, later, objects[1..], w) <==> AllFit(v, sink, objects, w)
  {
    forall i | 0 < i < |objects|
      ensures Fits(v, later, objects[1..][i - 1], w) <==> Fits(v, sink, objects[i], w)
    {
      FitsStill(v, sink, later, objects[i], w);
    }
    if AllFit(v, sink, objects, w) {
      forall i | 0 <= i < |objects[1..]|
        ensures Fits(v, later, objects[1..][i], w)
      {
        assert Fits(v, sink, objects[i + 1], w);
      }
    }
    if AllFit(v, later, objects[1..], w) {
      forall i | 0 <= i < |objects|
        ensures Fits(v, sink, objects[i], w)
      {
        assert i > 0 ==> Fits(v, later, objects[1..][i - 1], w);
      }
    }
  }

  // ---- Storing a directory ------------------------------------------------

  lemma PartsAreChunks(v: Vault, bundle: Directory, w: Writing)
    ensures ObjectsFor(v, ChunksOfDirectory(v, bundle, w), w) ==
            ChunkObjects(v, bundle, SplitPaths(v, bundle, w), w)
  {
    var chunks := SplitPaths(v, bundle, w);
    forall i | 0 <= i < |chunks|
      ensures ObjectsFor(v, ChunksOfDirectory(v, bundle, w), w)[i] == ChunkObjects(v, bundle, chunks, w)[i]
    {
      assert Part(bundle.entries, chunks[i]) == ChunkOf(bundle.entries, chunks[i]).entries;
    }
  }

  lemma SplitExactly(v: Vault, sink: Sink, bundle: Directory, w: Writing, maxExtensions: int)
    requires IsVault(v) && Genuine(v, sink) && !Fits(v, sink, Sealed(v, bundle, w), w)
    ensures var after, chunks := StoreDirectory(v, sink, bundle, w, maxExtensions), SplitPaths(v, bundle, w);
            var objects := ChunkObjects(v, bundle, chunks, w);
            var top := Sealed(v, Naming(v, bundle, objects), w);
            && (after.stored.Some? <==> FitsSplit(v, sink, bundle, chunks, w, maxExtensions))
            && (after.stored.Some? ==>
                  && after.stored.value == StoredDirectory(NameOf(v, top), |chunks|)
                  && after.sink == WithObjects(v, sink, objects)[v.address(top) := top])
            && Genuine(v, after.sink) && GrowsSmall(v, sink, after.sink, w)
  {
    OneExactly(v, sink, bundle, w);
    var chunks := ChunksOfDirectory(v, bundle, w);
    var objects := ObjectsFor(v, chunks, w);
    PartsAreChunks(v, bundle, w);
    ChunksExactly(v, sink, chunks, w);
    var stored := StoreChunks(v, sink, chunks, w);
    if |chunks| + |bundle.extensions| <= maxExtensions && stored.stored.Some? {
      var top := Naming(v, bundle, objects);
      assert TopOf(bundle, stored.stored.value) == top;
      OneExactly(v, stored.sink, top, w);
      FitsStill(v, sink, stored.sink, Sealed(v, top, w), w);
      GrowsTwice(v, sink, stored.sink, StoreOne(v, stored.sink, top, w).sink, w);
    }
  }

  /**
   A directory is stored if and only if it fits in one object, or its chunks and extensions are
   no more than allowed and each chunk fits, and so does what names them. It is then stored as
   that, in so many chunks, with its own metadata and versions; and nothing stored on the way,
   whether it was or not, is too large.
   */
  lemma StoredExactly(v: Vault, sink: Sink, bundle: Directory, w: Writing, maxExtensions: int)
    requires IsVault(v) && Genuine(v, sink)
    ensures var after := StoreDirectory(v, sink, bundle, w, maxExtensions);
            && (after.stored.Some? <==> CanStore(v, sink, bundle, w, maxExtensions))
            && (after.stored.Some? ==>
                  var o := Sealed(v, StoredForm(v, sink, bundle, w), w);
                  && after.stored.value == StoredDirectory(NameOf(v, o), ChunkCount(v, sink, bundle, w))
                  && v.address(o) in after.sink && after.sink[v.address(o)] == o)
            && Genuine(v, after.sink) && GrowsSmall(v, sink, after.sink, w)
  {
    if Fits(v, sink, Sealed(v, bundle, w), w) {
      OneExactly(v, sink, bundle, w);
    } else {
      SplitExactly(v, sink, bundle, w, maxExtensions);
    }
  }
}
