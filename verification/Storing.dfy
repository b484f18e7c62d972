/** Storing a directory bundle as one object, or split into chunks it extends. */
module Storing {
  import opened Wrappers
  import opened Hex
  import opened PartPaths
  import opened Shapes
  import opened Overlay
  import opened Reach
  import opened Meaning
  import opened Ordering
  import opened Splitting
  import opened Vaults
  import opened Reading

  /** Whether objects are stored encrypted, and the most one may hold. */
  datatype Writing = Writing(encrypted: bool, maxObjectBytes: nat)

  datatype StoredDirectory = StoredDirectory(path: PartPath, chunks: nat)

  /** `None` for what is too large to store; the sink may hold some of its chunks all the same. */
  datatype Attempt<T> = Attempt(stored: Option<T>, sink: Sink)

  const SPLIT_MARGIN_BYTES: nat := 64
  const SPLIT_MARGIN_SHARE: nat := 1024

  function ObjectOf(v: Vault, directory: Directory, encrypted: bool): Object {
    var bundle := Dir(directory);
    Object(bundle, if encrypted then Some(v.keyOf(bundle)) else None, DEFAULT_IV)
  }

  /** `directory` stored as one object, unless it is held already. */
  function StoreOne(v: Vault, sink: Sink, directory: Directory, w: Writing): Attempt<PartPath> {
    var o := ObjectOf(v, directory, w.encrypted);
    var p := PathOf(v, o);
    if v.refused(o.bundle, w.maxObjectBytes) then Attempt(None, sink)
    else if p.contentId in sink then Attempt(Some(p), sink)
    else if v.storedBytes(o) > w.maxObjectBytes then Attempt(None, sink)
    else Attempt(Some(p), sink[p.contentId := o])
  }

  function ChunkDirectory(chunk: Layer): Directory {
    Directory(chunk, NO_METADATA, [], [])
  }

  /** The texts naming `chunks`, each stored in turn, until one is too large. */
  function StoreChunks(v: Vault, sink: Sink, chunks: seq<Layer>, w: Writing): Attempt<seq<string>>
    decreases |chunks|
  {
    if chunks == [] then Attempt(Some([]), sink)
    else
      var first := StoreOne(v, sink, ChunkDirectory(chunks[0]), w);
      if first.stored.None? then Attempt(None, first.sink)
      else
        var rest := StoreChunks(v, first.sink, chunks[1..], w);
        if rest.stored.None? then Attempt(None, rest.sink)
        else Attempt(Some([v.text(first.stored.value)] + rest.stored.value), rest.sink)
  }

  /** How much of its entries' JSON a chunk may hold, leaving room for what storing it adds. */
  function ChunkBytes(w: Writing): int {
    w.maxObjectBytes - (w.maxObjectBytes / SPLIT_MARGIN_SHARE + SPLIT_MARGIN_BYTES)
  }

  function ChunksOfDirectory(v: Vault, bundle: Directory, w: Writing): seq<Layer> {
    Parts(bundle.entries, ChunkPaths(v.sizing, bundle.entries, ChunkBytes(w)))
  }

  function TopOf(bundle: Directory, chunks: seq<string>): Directory {
    Directory(map[], bundle.metadata, bundle.versions, chunks + bundle.extensions)
  }

  function StoreDirectory(v: Vault, sink: Sink, bundle: Directory, w: Writing, maxExtensions: int)
    : Attempt<StoredDirectory>
  {
    var whole := StoreOne(v, sink, bundle, w);
    if whole.stored.Some? then Attempt(Some(StoredDirectory(whole.stored.value, 0)), whole.sink)
    else
      var chunks := ChunksOfDirectory(v, bundle, w);
      if |chunks| + |bundle.extensions| > maxExtensions then Attempt(None, sink)
      else
        var stored := StoreChunks(v, sink, chunks, w);
        if stored.stored.None? then Attempt(None, stored.sink)
        else
          var top := StoreOne(v, stored.sink, TopOf(bundle, stored.stored.value), w);
          Attempt(if top.stored.None? then None else Some(StoredDirectory(top.stored.value, |chunks|)), top.sink)
  }

  /** Where new content is stored, such as the source of truth. */
  class ContentSink {
    var objects: Sink

    constructor ()
      ensures objects == map[]
    {
      objects := map[];
    }

    method Write(v: Vault, directory: Directory, w: Writing) returns (stored: Option<PartPath>)
      modifies this
      ensures Attempt(stored, objects) == StoreOne(v, old(objects), directory, w)
    {
      var o := ObjectOf(v, directory, w.encrypted);
      if v.refused(o.bundle, w.maxObjectBytes) {
        return None;
      }
      var p := PathOf(v, o);
      if p.contentId in objects {
        return Some(p);
      }
      if v.storedBytes(o) > w.maxObjectBytes {
        return None;
      }
      objects := objects[p.contentId := o];
      return Some(p);
    }

    method WriteDirectory(v: Vault, bundle: Directory, w: Writing, maxExtensions: int)
      returns (stored: Option<StoredDirectory>)
      modifies this
      ensures Attempt(stored, objects) == StoreDirectory(v, old(objects), bundle, w, maxExtensions)
    {
      var whole := Write(v, bundle, w);
      if whole.Some? {
        return Some(StoredDirectory(whole.value, 0));
      }
      var chunks := SplitEntries(v.sizing, bundle.entries, ChunkBytes(w));
      if |chunks| + |bundle.extensions| > maxExtensions {
        return None;
      }
      var names: seq<string> := [];
      ghost var all := StoreChunks(v, objects, chunks, w);
      assert chunks[0..] == chunks && Continued([], all) == all by {
        if all.stored.Some? {
          assert [] + all.stored.value == all.stored.value;
        }
      }
      for i := 0 to |chunks|
        invariant Continued(names, StoreChunks(v, objects, chunks[i..], w)) ==
                  all
      {
        assert chunks[i..][0] == chunks[i] && chunks[i..][1..] == chunks[i + 1..];
        ghost var rest := StoreChunks(v, objects, chunks[i..], w);
        var name := Write(v, ChunkDirectory(chunks[i]), w);
        if name.None? {
          return None;
        }
        ghost var after := StoreChunks(v, objects, chunks[i + 1..], w);
        if after.stored.Some? {
          assert names + ([v.text(name.value)] + after.stored.value) == (names + [v.text(name.value)]) + after.stored.value;
        }
        names := names + [v.text(name.value)];
      }
      assert names + [] == names && chunks[|chunks|..] == [];
      assert all == Attempt(Some(names), objects);
      var top := Write(v, TopOf(bundle, names), w);
      if top.None? {
        return None;
      }
      return Some(StoredDirectory(top.value, |chunks|));
    }
  }

  function Continued(names: seq<string>, rest: Attempt<seq<string>>): Attempt<seq<string>> {
    if rest.stored.None? then rest else Attempt(Some(names + rest.stored.value), rest.sink)
  }

  // ---- What storing gives -------------------------------------------------

  ghost predicate Grows(sink: Sink, later: Sink) {
    forall id :: id in sink ==> id in later && later[id] == sink[id]
  }

  /** `p` names `directory`, held in `sink`. */
  ghost predicate StoredAs(v: Vault, sink: Sink, p: PartPath, directory: Directory) {
    && Nameable(p) && p.contentId in sink
    && Ideal(v).load(p) == Held(Dir(directory))
  }

  lemma StoreOneStores(v: Vault, sink: Sink, directory: Directory, w: Writing)
    requires IsVault(v) && Genuine(v, sink)
    ensures var after := StoreOne(v, sink, directory, w);
            && Genuine(v, after.sink) && Grows(sink, after.sink)
            && (after.stored.Some? ==>
                  && StoredAs(v, after.sink, after.stored.value, directory)
                  && (after.stored.value.key.Some? <==> w.encrypted))
  {
    var o := ObjectOf(v, directory, w.encrypted);
    NamedIs(v, o, PathOf(v, o));
  }

  lemma {:induction false} StoreChunksStores(v: Vault, sink: Sink, chunks: seq<Layer>, w: Writing)
    requires IsVault(v) && Genuine(v, sink)
    ensures var after := StoreChunks(v, sink, chunks, w);
            && Genuine(v, after.sink) && Grows(sink, after.sink)
            && (after.stored.Some? ==> NameChunks(v, after.sink, after.stored.value, chunks))
    decreases |chunks|
  {
    if chunks != [] {
      StoreOneStores(v, sink, ChunkDirectory(chunks[0]), w);
      var first := StoreOne(v, sink, ChunkDirectory(chunks[0]), w);
      if first.stored.Some? {
        StoreChunksStores(v, first.sink, chunks[1..], w);
        var rest := StoreChunks(v, first.sink, chunks[1..], w);
        if rest.stored.Some? {
          assert NamesChunk(v, rest.sink, v.text(first.stored.value), chunks[0]);
          NameChunksMore(v, rest.sink, v.text(first.stored.value), rest.stored.value, chunks);
        }
      }
    }
  }

  lemma NameChunksMore(v: Vault, sink: Sink, name: string, names: seq<string>, chunks: seq<Layer>)
    requires chunks != [] && NamesChunk(v, sink, name, chunks[0]) && NameChunks(v, sink, names, chunks[1..])
    ensures NameChunks(v, sink, [name] + names, chunks)
  {
    forall i | 0 <= i < |chunks|
      ensures NamesChunk(v, sink, ([name] + names)[i], chunks[i])
    {
      if i > 0 {
        assert NamesChunk(v, sink, names[i - 1], chunks[1..][i - 1]);
      }
    }
  }

  ghost predicate NamesChunk(v: Vault, sink: Sink, name: string, chunk: Layer) {
    v.parse(name).Success? && StoredAs(v, sink, v.parse(name).value, ChunkDirectory(chunk))
  }

  ghost predicate NameChunks(v: Vault, sink: Sink, names: seq<string>, chunks: seq<Layer>) {
    |names| == |chunks| && forall i :: 0 <= i < |names| ==> NamesChunk(v, sink, names[i], chunks[i])
  }

  /** Chunks overlaid are the entries they were cut from. */
  lemma {:induction false} ChunksStack(v: Vault, sink: Sink, names: seq<string>, entries: Layer, paths: seq<seq<string>>)
    requires IsVault(v) && NameChunks(v, sink, names, Parts(entries, paths))
    ensures Stack(v, names) == Part(entries, Flat(paths))
  {
    IdealIsAcyclic(v);
    if names == [] {
      assert Part(entries, Flat(paths)) == map[];
    } else {
      assert NamesChunk(v, sink, names[0], Part(entries, paths[0]));
      forall i | 0 <= i < |names| - 1
        ensures NamesChunk(v, sink, names[1..][i], Parts(entries, paths[1..])[i])
      {
        assert NamesChunk(v, sink, names[i + 1], Parts(entries, paths)[i + 1]);
      }
      ChunksStack(v, sink, names[1..], entries, paths[1..]);
      var p := v.parse(names[0]).value;
      assert Whole(Ideal(v), RankOf(v), p) == map[] + Part(entries, paths[0]) == Part(entries, paths[0]);
      PartOfConcat(entries, paths[0], Flat(paths[1..]));
    }
  }

  lemma PartOfConcat(entries: Layer, a: seq<string>, b: seq<string>)
    ensures Part(entries, a + b) == Part(entries, b) + Part(entries, a)
  {
  }

  lemma PartOfAll(entries: Layer, paths: seq<string>)
    requires forall path :: path in paths <==> path in entries.Keys
    ensures Part(entries, paths) == entries
  {
  }

  /** What names chunks leads to them alone. */
  lemma ChunksReach(v: Vault, sink: Sink, names: seq<string>, chunks: seq<Layer>)
    requires IsVault(v) && NameChunks(v, sink, names, chunks)
    ensures Followable(v, names) && Kept(v, sink, names) && ReachesAtMost(v, names, |names|)
  {
    var r := Ideal(v);
    forall p | Names(r, names, p)
      ensures HeldDirectory(r, p) && p.contentId in sink && ExtensionsOf(r, p) == []
    {
      var i :| 0 <= i < |names| && r.parse(names[i]) == Success(p);
      assert NamesChunk(v, sink, names[i], chunks[i]);
    }
    forall p | Reachable(r, names, p)
      ensures Names(r, names, p)
    {
      var steps: nat :| Reaches(r, names, p, steps);
      LeavesReach(r, names, p, steps);
    }
    forall name | Listed(r, names, name)
      ensures v.parse(name).Success?
    {
      var i :| 0 <= i < |names| && names[i] == name;
      assert NamesChunk(v, sink, names[i], chunks[i]);
    }
    ParsedWithin(v, names);
    assert ReachesWithin(v, names, set name | name in names && v.parse(name).Success? :: v.parse(name).value);
  }

  lemma {:induction false} LeavesReach(r: Reader, names: seq<string>, p: PartPath, steps: nat)
    requires forall q :: Names(r, names, q) ==> ExtensionsOf(r, q) == []
    requires Reaches(r, names, p, steps)
    ensures Names(r, names, p)
    decreases steps
  {
    if steps > 0 {
      var q :| Reaches(r, names, q, steps - 1) && Names(r, ExtensionsOf(r, q), p);
      LeavesReach(r, names, q, steps - 1);
    }
  }

  lemma {:induction false} ParsedWithin(v: Vault, names: seq<string>)
    ensures |(set name | name in names && v.parse(name).Success? :: v.parse(name).value)| <= |names|
  {
    if names != [] {
      ParsedWithin(v, names[1..]);
      var rest := set name | name in names[1..] && v.parse(name).Success? :: v.parse(name).value;
      var all := set name | name in names && v.parse(name).Success? :: v.parse(name).value;
      if v.parse(names[0]).Success? {
        assert all == {v.parse(names[0]).value} + rest;
      } else {
        assert all == rest;
      }
    }
  }

  /** What names a stored directory's chunks. */
  ghost predicate ChunkNames(v: Vault, sink: Sink, stored: StoredDirectory, bundle: Directory, chunks: seq<string>) {
    && |chunks| == stored.chunks
    && ExtensionsOf(Ideal(v), stored.path) == chunks + bundle.extensions
    && Followable(v, chunks) && Kept(v, sink, chunks) && ReachesAtMost(v, chunks, |chunks|)
  }

  /** What a directory is stored as: over the extensions it had, its entries and chunks. */
  ghost predicate StoredOver(v: Vault, sink: Sink, stored: StoredDirectory, bundle: Directory) {
    && Nameable(stored.path) && stored.path.contentId in sink
    && HeldDirectory(Ideal(v), stored.path)
    && exists chunks :: ChunkNames(v, sink, stored, bundle, chunks)
  }

  lemma WholeIsStored(v: Vault, sink: Sink, p: PartPath, bundle: Directory)
    requires IsVault(v) && StoredAs(v, sink, p, bundle)
    ensures StoredOver(v, sink, StoredDirectory(p, 0), bundle)
    ensures Contents(v, p) == Stack(v, bundle.extensions) + bundle.entries
  {
    ChunksReach(v, sink, [], []);
    assert ExtensionsOf(Ideal(v), p) == [] + bundle.extensions;
    assert ChunkNames(v, sink, StoredDirectory(p, 0), bundle, []);
    IdealIsAcyclic(v);
  }

  lemma ChunksLast(v: Vault, sink: Sink, later: Sink, names: seq<string>, chunks: seq<Layer>)
    requires NameChunks(v, sink, names, chunks) && Grows(sink, later)
    ensures NameChunks(v, later, names, chunks)
  {
    forall i | 0 <= i < |names|
      ensures NamesChunk(v, later, names[i], chunks[i])
    {
      assert NamesChunk(v, sink, names[i], chunks[i]);
    }
  }

  lemma ChunksOfDirectoryStack(v: Vault, sink: Sink, bundle: Directory, names: seq<string>, w: Writing)
    requires IsVault(v) && NameChunks(v, sink, names, ChunksOfDirectory(v, bundle, w))
    ensures Stack(v, names) == bundle.entries
  {
    var paths := ChunkPaths(v.sizing, bundle.entries, ChunkBytes(w));
    ChunksStack(v, sink, names, bundle.entries, paths);
    ChunksHold(v.sizing, bundle.entries, ChunkBytes(w));
    SortedHolds(bundle.entries.Keys);
    PartOfAll(bundle.entries, Flat(paths));
  }

  lemma SplitHolds(v: Vault, p: PartPath, bundle: Directory, names: seq<string>)
    requires IsVault(v) && Ideal(v).load(p) == Held(Dir(TopOf(bundle, names)))
    requires Stack(v, names) == bundle.entries
    ensures Contents(v, p) == Stack(v, bundle.extensions) + bundle.entries
  {
    IdealIsAcyclic(v);
    ChainOfConcat(Ideal(v), RankOf(v), names, bundle.extensions);
    assert (Stack(v, bundle.extensions) + bundle.entries) + map[] == Stack(v, bundle.extensions) + bundle.entries;
  }

  /** What an attempt to store `bundle` over `sink` is to have done. */
  ghost predicate Stores(v: Vault, sink: Sink, bundle: Directory, w: Writing, maxExtensions: int,
                         after: Attempt<StoredDirectory>)
    requires IsVault(v)
  {
    && Genuine(v, after.sink) && Grows(sink, after.sink)
    && (after.stored.Some? ==>
          && StoredOver(v, after.sink, after.stored.value, bundle)
          && Contents(v, after.stored.value.path) == Stack(v, bundle.extensions) + bundle.entries
          && (after.stored.value.path.key.Some? <==> w.encrypted)
          && (after.stored.value.chunks > 0 ==>
                after.stored.value.chunks + |bundle.extensions| <= maxExtensions))
  }

  /** However it was split, a stored directory holds its entries over its extensions'. */
  lemma StoreDirectoryStores(v: Vault, sink: Sink, bundle: Directory, w: Writing, maxExtensions: int)
    requires IsVault(v) && Genuine(v, sink)
    ensures Stores(v, sink, bundle, w, maxExtensions, StoreDirectory(v, sink, bundle, w, maxExtensions))
  {
    StoreOneStores(v, sink, bundle, w);
    var whole := StoreOne(v, sink, bundle, w);
    if whole.stored.Some? {
      WholeIsStored(v, whole.sink, whole.stored.value, bundle);
    } else {
      var chunks := ChunksOfDirectory(v, bundle, w);
      StoreChunksStores(v, sink, chunks, w);
      var stored := StoreChunks(v, sink, chunks, w);
      if |chunks| + |bundle.extensions| <= maxExtensions && stored.stored.Some? {
        var names := stored.stored.value;
        StoreOneStores(v, stored.sink, TopOf(bundle, names), w);
        var top := StoreOne(v, stored.sink, TopOf(bundle, names), w);
        if top.stored.Some? {
          ChunksLast(v, stored.sink, top.sink, names, chunks);
          ChunksReach(v, top.sink, names, chunks);
          ChunksOfDirectoryStack(v, top.sink, bundle, names, w);
          SplitHolds(v, top.stored.value, bundle, names);
          assert ChunkNames(v, top.sink, StoredDirectory(top.stored.value, |names|), bundle, names);
          assert StoredOver(v, top.sink, StoredDirectory(top.stored.value, |names|), bundle);
        }
      }
    }
  }
}
