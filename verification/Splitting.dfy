/** Splitting a directory's entries into chunks, each to be stored as an extension. */
module Splitting {
  import opened Wrappers
  import opened Shapes
  import opened Ordering

  /** The bytes a path and its entry take, and whether so many end a chunk of about a target. */
  datatype Sizing = Sizing(bytes: (string, Option<Entry>) -> nat, ends: (string, nat, int) -> bool)

  const SCALE: nat := 0x1_0000_0000_0000_0000

  /** How chunks end: at odds of an entry's bytes in the target, by the number its path hashes to. */
  function Hashed(bytes: (string, Option<Entry>) -> nat, fraction: string -> nat): Sizing {
    Sizing(bytes, (path, entryBytes, targetBytes) => fraction(path) * targetBytes < entryBytes * SCALE)
  }

  /** What each path of one directory weighs, and whether it ends its chunk, wherever it stands. */
  datatype Weights = Weights(bytes: string -> nat, ends: string -> bool)

  function BytesOf(z: Sizing, entries: Layer, path: string): nat {
    if path in entries then z.bytes(path, entries[path]) else 0
  }

  function Weighed(z: Sizing, entries: Layer, maxBytes: int): Weights {
    Weights(path => BytesOf(z, entries, path),
            path => z.ends(path, BytesOf(z, entries, path), maxBytes / 2))
  }

  /** The chunk under way: its paths, and the bytes they take. */
  datatype Chunk = Chunk(paths: seq<string>, bytes: nat)

  const EMPTY := Chunk([], 0)

  /** The chunks one entry ends, and the one under way after it. */
  datatype Turn = Turn(ended: seq<seq<string>>, chunk: Chunk)

  predicate Full(chunk: Chunk, entryBytes: nat, maxBytes: int) {
    chunk.paths != [] && chunk.bytes + entryBytes > maxBytes
  }

  function Taken(w: Weights, maxBytes: int, path: string, chunk: Chunk): Turn {
    var full := Full(chunk, w.bytes(path), maxBytes);
    var base := if full then EMPTY else chunk;
    var ended := if full then [chunk.paths] else [];
    var grown := Chunk(base.paths + [path], base.bytes + w.bytes(path));
    if w.ends(path) then Turn(ended + [grown.paths], EMPTY) else Turn(ended, grown)
  }

  /** The paths of each chunk `paths` are split into, `chunk` being under way. */
  function Chunked(w: Weights, maxBytes: int, paths: seq<string>, chunk: Chunk): seq<seq<string>>
    decreases |paths|
  {
    if paths == [] then if chunk.paths == [] then [] else [chunk.paths]
    else
      var turn := Taken(w, maxBytes, paths[0], chunk);
      turn.ended + Chunked(w, maxBytes, paths[1..], turn.chunk)
  }

  function ChunkPaths(z: Sizing, entries: Layer, maxBytes: int): seq<seq<string>> {
    Chunked(Weighed(z, entries, maxBytes), maxBytes, Sorted(entries.Keys), EMPTY)
  }

  function Part(entries: Layer, paths: seq<string>): Layer {
    map path | path in paths && path in entries :: entries[path]
  }

  function Parts(entries: Layer, chunks: seq<seq<string>>): (parts: seq<Layer>)
    ensures |parts| == |chunks|
    ensures forall i :: 0 <= i < |chunks| ==> parts[i] == Part(entries, chunks[i])
  {
    if chunks == [] then [] else [Part(entries, chunks[0])] + Parts(entries, chunks[1..])
  }

  lemma {:induction false} PartsOfConcat(entries: Layer, a: seq<seq<string>>, b: seq<seq<string>>)
    ensures Parts(entries, a + b) == Parts(entries, a) + Parts(entries, b)
  {
  }

  lemma GrownPart(entries: Layer, under: seq<string>, path: string)
    requires path in entries
    ensures Part(entries, under + [path]) == Part(entries, under)[path := entries[path]]
    ensures path in Part(entries, under + [path])
  {
  }

  /** What the loop has made: the chunks ended, and the one under way, with its bytes. */
  datatype Making = Making(chunks: seq<Layer>, chunk: Layer, bytes: nat)

  function Close(m: Making): Making {
    Making(m.chunks + [m.chunk], map[], 0)
  }

  function MakeTurn(w: Weights, entries: Layer, maxBytes: int, path: string, m: Making): Making
    requires path in entries
  {
    var open := if m.chunk != map[] && m.bytes + w.bytes(path) > maxBytes then Close(m) else m;
    var grown := Making(open.chunks, open.chunk[path := entries[path]], open.bytes + w.bytes(path));
    if w.ends(path) then Close(grown) else grown
  }

  function Make(w: Weights, entries: Layer, maxBytes: int, paths: seq<string>, m: Making): seq<Layer>
    requires forall i :: 0 <= i < |paths| ==> paths[i] in entries
    decreases |paths|
  {
    if paths == [] then if m.chunk == map[] then m.chunks else Close(m).chunks
    else Make(w, entries, maxBytes, paths[1..], MakeTurn(w, entries, maxBytes, paths[0], m))
  }

  method SplitEntries(z: Sizing, entries: Layer, maxBytes: int) returns (chunks: seq<Layer>)
    ensures chunks == Parts(entries, ChunkPaths(z, entries, maxBytes))
  {
    var targetBytes := maxBytes / 2;
    var chunk: Layer := map[];
    var chunkBytes: nat := 0;
    chunks := [];
    var paths := Sorted(entries.Keys);
    ghost var w := Weighed(z, entries, maxBytes);
    SortedIndices(entries.Keys);
    assert paths[0..] == paths;
    for i := 0 to |paths|
      invariant Make(w, entries, maxBytes, paths[i..], Making(chunks, chunk, chunkBytes)) ==
                Make(w, entries, maxBytes, paths, Making([], map[], 0))
    {
      var path := paths[i];
      var entry := entries[path];
      var entryBytes := z.bytes(path, entry);
      ghost var turn := MakeTurn(w, entries, maxBytes, path, Making(chunks, chunk, chunkBytes));
      assert paths[i..][0] == path && paths[i..][1..] == paths[i + 1..];
      if chunk != map[] && chunkBytes + entryBytes > maxBytes {
        chunks := chunks + [chunk];
        chunk, chunkBytes := map[], 0;
      }
      chunk := chunk[path := entry];
      chunkBytes := chunkBytes + entryBytes;
      if z.ends(path, entryBytes, targetBytes) {
        chunks := chunks + [chunk];
        chunk, chunkBytes := map[], 0;
      }
      assert Making(chunks, chunk, chunkBytes) == turn;
    }
    if chunk != map[] {
      chunks := chunks + [chunk];
    }
    assert Part(entries, []) == map[] && paths[|paths|..] == [];
    MakeIsParts(w, entries, maxBytes, paths, [], EMPTY);
  }

  /** A chunk under way as the loop has it: the entries of its paths, empty only with none. */
  predicate IsUnder(entries: Layer, under: Chunk) {
    Part(entries, under.paths) == map[] <==> under.paths == []
  }

  function MakingOf(entries: Layer, chunks: seq<Layer>, under: Chunk): Making {
    Making(chunks, Part(entries, under.paths), under.bytes)
  }

  lemma TurnIsTaken(w: Weights, entries: Layer, maxBytes: int, path: string, chunks: seq<Layer>, under: Chunk)
    requires path in entries && IsUnder(entries, under)
    ensures var turn := Taken(w, maxBytes, path, under);
            && IsUnder(entries, turn.chunk)
            && MakeTurn(w, entries, maxBytes, path, MakingOf(entries, chunks, under)) ==
               MakingOf(entries, chunks + Parts(entries, turn.ended), turn.chunk)
  {
    var full := Full(under, w.bytes(path), maxBytes);
    var base := if full then [] else under.paths;
    assert Part(entries, []) == map[];
    GrownPart(entries, base, path);
    var turn := Taken(w, maxBytes, path, under);
    if full && w.ends(path) {
      assert base + [path] == [path];
      assert turn.ended == [under.paths] + [[path]] == [under.paths, [path]];
      assert Parts(entries, turn.ended) == [Part(entries, under.paths), Part(entries, [path])];
    } else if full {
      assert turn.ended == [under.paths];
    } else if w.ends(path) {
      assert turn.ended == [base + [path]];
    } else {
      assert turn.ended == [];
    }
  }

  /** The loop makes the chunks of the paths it is given. */
  lemma {:induction false} MakeIsParts(w: Weights, entries: Layer, maxBytes: int, paths: seq<string>,
                                       chunks: seq<Layer>, under: Chunk)
    requires forall i :: 0 <= i < |paths| ==> paths[i] in entries
    requires IsUnder(entries, under)
    ensures Make(w, entries, maxBytes, paths, MakingOf(entries, chunks, under)) ==
            chunks + Parts(entries, Chunked(w, maxBytes, paths, under))
    decreases |paths|
  {
    if paths == [] {
      assert Parts(entries, [under.paths]) == [Part(entries, under.paths)];
    } else {
      var turn := Taken(w, maxBytes, paths[0], under);
      var rest := Chunked(w, maxBytes, paths[1..], turn.chunk);
      TurnIsTaken(w, entries, maxBytes, paths[0], chunks, under);
      MakeIsParts(w, entries, maxBytes, paths[1..], chunks + Parts(entries, turn.ended), turn.chunk);
      PartsOfConcat(entries, turn.ended, rest);
      Regrouped(chunks, Parts(entries, turn.ended), Parts(entries, rest));
    }
  }

  lemma SortedIndices(paths: set<string>)
    ensures forall i :: 0 <= i < |Sorted(paths)| ==> Sorted(paths)[i] in paths
  {
    SortedHolds(paths);
  }

  // ---- What the chunks are ------------------------------------------------

  function Flat(chunks: seq<seq<string>>): seq<string> {
    if chunks == [] then [] else chunks[0] + Flat(chunks[1..])
  }

  lemma {:induction false} FlatOfConcat(a: seq<seq<string>>, b: seq<seq<string>>)
    ensures Flat(a + b) == Flat(a) + Flat(b)
  {
    if a == [] {
      assert a + b == b;
    } else {
      FlatOfConcat(a[1..], b);
      assert (a + b)[1..] == a[1..] + b;
    }
  }

  lemma FlatOfOne(chunk: seq<string>)
    ensures Flat([chunk]) == chunk
  {
  }

  function TotalBytes(w: Weights, paths: seq<string>): nat {
    if paths == [] then 0 else TotalBytes(w, paths[..|paths| - 1]) + w.bytes(paths[|paths| - 1])
  }

  lemma TotalOfGrown(w: Weights, chunk: seq<string>, path: string)
    ensures TotalBytes(w, chunk + [path]) == TotalBytes(w, chunk) + w.bytes(path)
  {
    assert (chunk + [path])[..|chunk|] == chunk;
  }

  /** A chunk holds something, and fits unless it holds one entry alone. */
  predicate IsChunk(w: Weights, maxBytes: int, chunk: seq<string>) {
    chunk != [] && (|chunk| == 1 || TotalBytes(w, chunk) <= maxBytes)
  }

  /** A chunk under way is empty, or is one already; its bytes are those of its paths. */
  predicate UnderWay(w: Weights, maxBytes: int, chunk: Chunk) {
    && chunk.bytes == TotalBytes(w, chunk.paths)
    && (chunk.paths != [] ==> IsChunk(w, maxBytes, chunk.paths))
  }

  lemma GrownHolds(w: Weights, maxBytes: int, path: string, chunk: Chunk, base: Chunk)
    requires UnderWay(w, maxBytes, chunk)
    requires base == if Full(chunk, w.bytes(path), maxBytes) then EMPTY else chunk
    ensures IsChunk(w, maxBytes, base.paths + [path])
    ensures TotalBytes(w, base.paths + [path]) == base.bytes + w.bytes(path)
  {
    TotalOfGrown(w, base.paths, path);
  }

  lemma TakenHolds(w: Weights, maxBytes: int, path: string, chunk: Chunk)
    requires UnderWay(w, maxBytes, chunk)
    ensures var turn := Taken(w, maxBytes, path, chunk);
            && Flat(turn.ended) + turn.chunk.paths == chunk.paths + [path]
            && UnderWay(w, maxBytes, turn.chunk)
            && forall c :: c in turn.ended ==> IsChunk(w, maxBytes, c)
  {
    var full := Full(chunk, w.bytes(path), maxBytes);
    var base := if full then EMPTY else chunk;
    GrownHolds(w, maxBytes, path, chunk, base);
    FlatOfOne(chunk.paths);
    FlatOfOne(base.paths + [path]);
    FlatOfConcat([chunk.paths], [[path]]);
  }

  lemma {:induction false} ChunkedHolds(w: Weights, maxBytes: int, paths: seq<string>, chunk: Chunk)
    requires UnderWay(w, maxBytes, chunk)
    ensures Flat(Chunked(w, maxBytes, paths, chunk)) == chunk.paths + paths
    ensures forall c :: c in Chunked(w, maxBytes, paths, chunk) ==> IsChunk(w, maxBytes, c)
    decreases |paths|
  {
    if paths == [] {
      FlatOfOne(chunk.paths);
    } else {
      var turn := Taken(w, maxBytes, paths[0], chunk);
      var rest := Chunked(w, maxBytes, paths[1..], turn.chunk);
      TakenHolds(w, maxBytes, paths[0], chunk);
      ChunkedHolds(w, maxBytes, paths[1..], turn.chunk);
      FlatOfConcat(turn.ended, rest);
      Regrouped(Flat(turn.ended), turn.chunk.paths, paths[1..]);
      Regrouped(chunk.paths, [paths[0]], paths[1..]);
      assert paths == [paths[0]] + paths[1..];
    }
  }

  /** Every entry is in one chunk, in order of path; only a lone entry is larger than allowed. */
  lemma ChunksHold(z: Sizing, entries: Layer, maxBytes: int)
    ensures Flat(ChunkPaths(z, entries, maxBytes)) == Sorted(entries.Keys)
    ensures forall c :: c in ChunkPaths(z, entries, maxBytes) ==> IsChunk(Weighed(z, entries, maxBytes), maxBytes, c)
  {
    ChunkedHolds(Weighed(z, entries, maxBytes), maxBytes, Sorted(entries.Keys), EMPTY);
  }

  // ---- Where the chunks end -----------------------------------------------

  /** Whether a chunk may be as it is: nothing in it ends one but its last entry, if that does. */
  predicate IsClosed(w: Weights, maxBytes: int, chunk: seq<string>) {
    IsChunk(w, maxBytes, chunk) && forall k :: 0 <= k < |chunk| - 1 ==> !w.ends(chunk[k])
  }

  /** Whether a chunk ends before `next` for a reason: its last entry ends it, or it has no room for `next`. */
  predicate EndsBefore(w: Weights, maxBytes: int, chunk: seq<string>, next: string)
    requires chunk != []
  {
    w.ends(chunk[|chunk| - 1]) || TotalBytes(w, chunk) + w.bytes(next) > maxBytes
  }

  /** Whether chunks go on as long as they may, and no longer. */
  predicate IsSplit(w: Weights, maxBytes: int, chunks: seq<seq<string>>) {
    chunks == [] ||
    (&& IsClosed(w, maxBytes, chunks[0]) && IsSplit(w, maxBytes, chunks[1..])
     && (|chunks| > 1 ==> chunks[1] != [] && EndsBefore(w, maxBytes, chunks[0], chunks[1][0])))
  }

  predicate EndsNone(w: Weights, paths: seq<string>) {
    forall k :: 0 <= k < |paths| ==> !w.ends(paths[k])
  }

  /** What comes of a chunk under way: more of it first, or what follows where it is empty. */
  predicate GoesOn(chunks: seq<seq<string>>, under: seq<string>, paths: seq<string>) {
    && (chunks == [] <==> under == [] && paths == [])
    && (chunks != [] ==> chunks[0] != [] && chunks[0][0] == (under + paths)[0])
  }

  lemma {:induction false} ChunkedSplits(w: Weights, maxBytes: int, paths: seq<string>, chunk: Chunk)
    requires UnderWay(w, maxBytes, chunk) && EndsNone(w, chunk.paths)
    ensures var chunks := Chunked(w, maxBytes, paths, chunk);
            IsSplit(w, maxBytes, chunks) && GoesOn(chunks, chunk.paths, paths)
    decreases |paths|
  {
    if paths == [] {
      assert IsSplit(w, maxBytes, []);
      assert [chunk.paths][1..] == [];
    } else {
      var turn := Taken(w, maxBytes, paths[0], chunk);
      var rest := Chunked(w, maxBytes, paths[1..], turn.chunk);
      TakenHolds(w, maxBytes, paths[0], chunk);
      ChunkedSplits(w, maxBytes, paths[1..], turn.chunk);
      TurnSplits(w, maxBytes, paths, chunk, rest);
    }
  }

  lemma TurnSplits(w: Weights, maxBytes: int, paths: seq<string>, chunk: Chunk, rest: seq<seq<string>>)
    requires UnderWay(w, maxBytes, chunk) && EndsNone(w, chunk.paths) && paths != []
    requires var turn := Taken(w, maxBytes, paths[0], chunk);
             IsSplit(w, maxBytes, rest) && GoesOn(rest, turn.chunk.paths, paths[1..])
    ensures var turn := Taken(w, maxBytes, paths[0], chunk);
            IsSplit(w, maxBytes, turn.ended + rest) && GoesOn(turn.ended + rest, chunk.paths, paths)
  {
    var full := Full(chunk, w.bytes(paths[0]), maxBytes);
    var base := if full then EMPTY else chunk;
    var ended := if full then [chunk.paths] else [];
    var grown := base.paths + [paths[0]];
    GrownHolds(w, maxBytes, paths[0], chunk, base);
    if w.ends(paths[0]) {
      EndSplits(w, maxBytes, paths, base.paths, rest);
      FullSplits(w, maxBytes, paths, chunk, full, [grown] + rest);
      Regrouped(ended, [grown], rest);
    } else {
      GrownGoesOn(base.paths, paths, rest);
      FullSplits(w, maxBytes, paths, chunk, full, rest);
    }
  }

  lemma EndSplits(w: Weights, maxBytes: int, paths: seq<string>, base: seq<string>, rest: seq<seq<string>>)
    requires paths != [] && w.ends(paths[0]) && EndsNone(w, base)
    requires IsChunk(w, maxBytes, base + [paths[0]]) && IsSplit(w, maxBytes, rest) && GoesOn(rest, [], paths[1..])
    ensures IsSplit(w, maxBytes, [base + [paths[0]]] + rest) && GoesOn([base + [paths[0]]] + rest, base, paths)
  {
    OneMoreSplit(w, maxBytes, base + [paths[0]], rest);
  }

  lemma GrownGoesOn(base: seq<string>, paths: seq<string>, rest: seq<seq<string>>)
    requires paths != [] && GoesOn(rest, base + [paths[0]], paths[1..])
    ensures GoesOn(rest, base, paths)
  {
    assert base + [paths[0]] + paths[1..] == base + paths;
  }

  /** A chunk with no room for what is first of those that follow ends before them. */
  lemma FullSplits(w: Weights, maxBytes: int, paths: seq<string>, chunk: Chunk, full: bool, rest: seq<seq<string>>)
    requires UnderWay(w, maxBytes, chunk) && EndsNone(w, chunk.paths) && paths != []
    requires full == Full(chunk, w.bytes(paths[0]), maxBytes)
    requires IsSplit(w, maxBytes, rest) && GoesOn(rest, if full then [] else chunk.paths, paths)
    ensures var all := (if full then [chunk.paths] else []) + rest;
            IsSplit(w, maxBytes, all) && GoesOn(all, chunk.paths, paths)
  {
    if full {
      OneMoreSplit(w, maxBytes, chunk.paths, rest);
    } else {
      assert [] + rest == rest;
    }
  }

  lemma OneMoreSplit(w: Weights, maxBytes: int, chunk: seq<string>, rest: seq<seq<string>>)
    requires IsClosed(w, maxBytes, chunk) && IsSplit(w, maxBytes, rest)
    requires rest != [] ==> rest[0] != [] && EndsBefore(w, maxBytes, chunk, rest[0][0])
    ensures IsSplit(w, maxBytes, [chunk] + rest)
  {
    assert ([chunk] + rest)[1..] == rest;
  }

  lemma {:induction false} TotalOfMore(w: Weights, paths: seq<string>, n: nat)
    requires n <= |paths|
    ensures TotalBytes(w, paths[..n]) <= TotalBytes(w, paths)
    decreases |paths| - n
  {
    if n < |paths| {
      assert paths[..n + 1][..n] == paths[..n];
      TotalOfMore(w, paths, n + 1);
    } else {
      assert paths[..n] == paths;
    }
  }

  lemma FlatAfterFirst(chunks: seq<seq<string>>)
    requires chunks != []
    ensures chunks[0] <= Flat(chunks) && Flat(chunks)[|chunks[0]|..] == Flat(chunks[1..])
    ensures |chunks| > 1 && chunks[1] != [] ==> Flat(chunks[1..]) != [] && Flat(chunks[1..])[0] == chunks[1][0]
  {
  }

  /** A chunk that goes on past where another ends for a reason is not closed. */
  lemma LongerIsNotClosed(w: Weights, maxBytes: int, chunk: seq<string>, next: string, longer: seq<string>)
    requires chunk != [] && EndsBefore(w, maxBytes, chunk, next)
    requires |longer| > |chunk| && longer[..|chunk| + 1] == chunk + [next]
    ensures !IsClosed(w, maxBytes, longer)
  {
    var m := |chunk|;
    TotalOfGrown(w, chunk, next);
    TotalOfMore(w, longer, m + 1);
    assert longer[m - 1] == (longer[..m + 1])[m - 1] == chunk[m - 1];
  }

  lemma PrefixesMeet(whole: seq<string>, chunk: seq<string>, longer: seq<string>)
    requires chunk <= whole && longer <= whole && |longer| > |chunk|
    ensures longer[..|chunk| + 1] == chunk + [whole[|chunk|]]
  {
  }

  /** A chunk that may go on does: of two ways to begin, neither is the longer. */
  lemma FirstIsNoLonger(w: Weights, maxBytes: int, a: seq<seq<string>>, b: seq<seq<string>>)
    requires IsSplit(w, maxBytes, a) && IsSplit(w, maxBytes, b) && Flat(a) == Flat(b) && a != [] && b != []
    ensures |b[0]| <= |a[0]|
  {
    FlatAfterFirst(a);
    FlatAfterFirst(b);
    if |a[0]| < |b[0]| {
      PrefixesMeet(Flat(a), a[0], b[0]);
      if |a| > 1 {
        LongerIsNotClosed(w, maxBytes, a[0], a[1][0], b[0]);
      }
    }
  }

  /** There is one way to split so. */
  lemma {:induction false} SplitIsOne(w: Weights, maxBytes: int, a: seq<seq<string>>, b: seq<seq<string>>)
    requires IsSplit(w, maxBytes, a) && IsSplit(w, maxBytes, b) && Flat(a) == Flat(b)
    ensures a == b
    decreases |a|
  {
    if a != [] {
      FlatAfterFirst(a);
    }
    if b != [] {
      FlatAfterFirst(b);
    }
    if a != [] && b != [] {
      FirstIsNoLonger(w, maxBytes, a, b);
      FirstIsNoLonger(w, maxBytes, b, a);
      assert a[0] == Flat(a)[..|a[0]|] && b[0] == Flat(b)[..|b[0]|];
      SplitIsOne(w, maxBytes, a[1..], b[1..]);
    }
  }

  /** The chunks are the one way to split a directory's paths, in order, into chunks that go on as long as they may. */
  lemma ChunksAreTheSplit(z: Sizing, entries: Layer, maxBytes: int, chunks: seq<seq<string>>)
    ensures chunks == ChunkPaths(z, entries, maxBytes) <==>
            Flat(chunks) == Sorted(entries.Keys) && IsSplit(Weighed(z, entries, maxBytes), maxBytes, chunks)
  {
    var w := Weighed(z, entries, maxBytes);
    var all := ChunkPaths(z, entries, maxBytes);
    ChunkedSplits(w, maxBytes, Sorted(entries.Keys), EMPTY);
    ChunksHold(z, entries, maxBytes);
    if Flat(chunks) == Sorted(entries.Keys) && IsSplit(w, maxBytes, chunks) {
      SplitIsOne(w, maxBytes, chunks, all);
    }
  }

  /** An entry ends its chunk if and only if its path hashes, of all there are, to less than its share of the target. */
  lemma EntryEndsExactly(bytes: (string, Option<Entry>) -> nat, fraction: string -> nat, entries: Layer,
                         maxBytes: int, path: string)
    requires path in entries
    ensures Weighed(Hashed(bytes, fraction), entries, maxBytes).ends(path) <==>
            fraction(path) * (maxBytes / 2) < bytes(path, entries[path]) * 0x1_0000_0000_0000_0000
  {
  }

  /** An entry as large as chunks are meant to be always ends its chunk. */
  lemma LargeEntryEnds(bytes: (string, Option<Entry>) -> nat, fraction: string -> nat, entries: Layer,
                       maxBytes: int, path: string)
    requires path in entries && fraction(path) < SCALE
    requires bytes(path, entries[path]) > 0 && bytes(path, entries[path]) >= maxBytes / 2
    ensures Weighed(Hashed(bytes, fraction), entries, maxBytes).ends(path)
  {
    var target := maxBytes / 2;
    var size := bytes(path, entries[path]);
    if target > 0 {
      assert fraction(path) * target < SCALE * target;
      assert SCALE * target <= SCALE * size;
    } else {
      assert fraction(path) * target <= 0;
    }
  }

  // ---- Locality -----------------------------------------------------------

  /** Splitting starts afresh after an entry that ends its chunk. */
  lemma {:induction false} SplitComposes(w: Weights, maxBytes: int, a: seq<string>, b: seq<string>, chunk: Chunk)
    requires a != [] && w.ends(a[|a| - 1])
    ensures Chunked(w, maxBytes, a + b, chunk) ==
            Chunked(w, maxBytes, a, chunk) + Chunked(w, maxBytes, b, EMPTY)
    decreases |a|
  {
    var turn := Taken(w, maxBytes, a[0], chunk);
    assert (a + b)[0] == a[0] && (a + b)[1..] == a[1..] + b;
    if |a| == 1 {
      assert a[1..] + b == b;
    } else {
      SplitComposes(w, maxBytes, a[1..], b, turn.chunk);
    }
  }

  predicate Alike(v: Weights, w: Weights, path: string) {
    v.bytes(path) == w.bytes(path) && v.ends(path) == w.ends(path)
  }

  lemma {:induction false} ChunkedAgrees(v: Weights, w: Weights, maxBytes: int, paths: seq<string>, chunk: Chunk)
    requires forall i :: 0 <= i < |paths| ==> Alike(v, w, paths[i])
    ensures Chunked(v, maxBytes, paths, chunk) == Chunked(w, maxBytes, paths, chunk)
    decreases |paths|
  {
    if paths != [] {
      assert Alike(v, w, paths[0]);
      ChunkedAgrees(v, w, maxBytes, paths[1..], Taken(v, maxBytes, paths[0], chunk).chunk);
    }
  }

  /** The chunks of some paths of a directory, split on their own. */
  function ChunksOf(z: Sizing, entries: Layer, maxBytes: int, paths: set<string>): seq<seq<string>> {
    Chunked(Weighed(z, entries, maxBytes), maxBytes, Sorted(paths), EMPTY)
  }

  function UpTo(paths: set<string>, a: string): set<string> {
    set path | path in paths && (path == a || Before(path, a))
  }

  function After(paths: set<string>, a: string): set<string> {
    set path | path in paths && Before(a, path)
  }

  lemma LastOfUpTo(paths: set<string>, a: string)
    requires a in paths
    ensures Sorted(UpTo(paths, a)) != [] && Sorted(UpTo(paths, a))[|Sorted(UpTo(paths, a))| - 1] == a
  {
    var low := UpTo(paths, a) - {a};
    assert UpTo(paths, a) == low + {a};
    assert forall p, q :: p in low && q in {a} ==> Before(p, q);
    SortedOfParts(low, {a});
    SortedIsUnique([a], {a});
  }

  lemma LowAndHigh(paths: set<string>, a: string)
    requires a in paths
    ensures Sorted(paths) == Sorted(UpTo(paths, a)) + Sorted(After(paths, a))
  {
    var low, high := UpTo(paths, a), After(paths, a);
    forall p, q | p in low && q in high
      ensures Before(p, q)
    {
      if p != a {
        Transitive(p, a, q);
      }
    }
    forall p | p in paths
      ensures p in low + high
    {
      Connected(p, a);
    }
    assert paths == low + high;
    SortedOfParts(low, high);
  }

  /** The chunks up to an entry that ends one, and those after it, are each split on their own. */
  lemma SplitAt(z: Sizing, entries: Layer, maxBytes: int, paths: set<string>, a: string)
    requires a in paths && Weighed(z, entries, maxBytes).ends(a)
    ensures ChunksOf(z, entries, maxBytes, paths) ==
            ChunksOf(z, entries, maxBytes, UpTo(paths, a)) + ChunksOf(z, entries, maxBytes, After(paths, a))
  {
    LowAndHigh(paths, a);
    LastOfUpTo(paths, a);
    SplitComposes(Weighed(z, entries, maxBytes), maxBytes, Sorted(UpTo(paths, a)), Sorted(After(paths, a)), EMPTY);
  }

  /** The middle of a directory, after `a` and up to `b`. */
  function Between(paths: set<string>, a: string, b: string): set<string> {
    UpTo(After(paths, a), b)
  }

  lemma AfterBoth(paths: set<string>, a: string, b: string)
    requires Before(a, b)
    ensures After(After(paths, a), b) == After(paths, b)
    ensures b in paths ==> b in After(paths, a)
  {
    forall path | path in After(paths, b)
      ensures path in After(paths, a)
    {
      Transitive(a, b, path);
    }
  }

  lemma SplitTwice(z: Sizing, e: Layer, maxBytes: int, a: string, b: string)
    requires Before(a, b) && a in e && b in e
    requires Weighed(z, e, maxBytes).ends(a) && Weighed(z, e, maxBytes).ends(b)
    ensures ChunkPaths(z, e, maxBytes) ==
            ChunksOf(z, e, maxBytes, UpTo(e.Keys, a)) + ChunksOf(z, e, maxBytes, Between(e.Keys, a, b)) +
            ChunksOf(z, e, maxBytes, After(e.Keys, b))
  {
    SplitAt(z, e, maxBytes, e.Keys, a);
    SplitAt(z, e, maxBytes, After(e.Keys, a), b);
    AfterBoth(e.Keys, a, b);
    Regrouped(ChunksOf(z, e, maxBytes, UpTo(e.Keys, a)), ChunksOf(z, e, maxBytes, Between(e.Keys, a, b)),
              ChunksOf(z, e, maxBytes, After(e.Keys, b)));
  }

  predicate SameAt(e: Layer, f: Layer, path: string) {
    (path in e <==> path in f) && (path in e ==> e[path] == f[path])
  }

  predicate Inside(a: string, b: string, path: string) {
    Before(a, path) && Before(path, b)
  }

  lemma EdgesAreOutside(a: string, b: string, path: string)
    requires path == a || Before(path, a) || path == b || Before(b, path)
    ensures !Inside(a, b, path)
  {
    Irreflexive(a);
    Irreflexive(b);
    if Inside(a, b, path) {
      if Before(path, a) {
        Transitive(a, path, a);
      } else if Before(b, path) {
        Transitive(b, path, b);
      }
    }
  }

  lemma SameOutside(e: Layer, f: Layer, a: string, b: string)
    requires forall path :: !Inside(a, b, path) ==> SameAt(e, f, path)
    ensures UpTo(e.Keys, a) == UpTo(f.Keys, a) && After(e.Keys, b) == After(f.Keys, b)
    ensures forall path :: path in UpTo(e.Keys, a) || path in After(e.Keys, b) ==> SameAt(e, f, path)
  {
    forall path | path == a || Before(path, a) || path == b || Before(b, path)
      ensures SameAt(e, f, path)
    {
      EdgesAreOutside(a, b, path);
    }
    SameUpTo(e, f, a);
    SameAfter(e, f, b);
  }

  lemma ChunksOfSame(z: Sizing, e: Layer, f: Layer, maxBytes: int, paths: set<string>)
    requires forall path :: path in paths ==> SameAt(e, f, path)
    ensures ChunksOf(z, e, maxBytes, paths) == ChunksOf(z, f, maxBytes, paths)
  {
    var v, w := Weighed(z, e, maxBytes), Weighed(z, f, maxBytes);
    SortedIndices(paths);
    forall i | 0 <= i < |Sorted(paths)|
      ensures Alike(v, w, Sorted(paths)[i])
    {
      assert SameAt(e, f, Sorted(paths)[i]);
    }
    ChunkedAgrees(v, w, maxBytes, Sorted(paths), EMPTY);
  }

  /** What the chunks of some paths of a directory hold: what is stored, as an extension each. */
  function LayersOf(z: Sizing, entries: Layer, maxBytes: int, paths: set<string>): seq<Layer> {
    Parts(entries, ChunksOf(z, entries, maxBytes, paths))
  }

  lemma {:induction false} PartsOfSame(e: Layer, f: Layer, chunks: seq<seq<string>>)
    requires forall path :: path in Flat(chunks) ==> SameAt(e, f, path)
    ensures Parts(e, chunks) == Parts(f, chunks)
    decreases |chunks|
  {
    if chunks != [] {
      assert forall path :: path in chunks[0] ==> path in Flat(chunks);
      assert forall path :: path in Flat(chunks[1..]) ==> path in Flat(chunks);
      PartOfSame(e, f, chunks[0]);
      PartsOfSame(e, f, chunks[1..]);
    }
  }

  lemma PartOfSame(e: Layer, f: Layer, paths: seq<string>)
    requires forall path :: path in paths ==> SameAt(e, f, path)
    ensures Part(e, paths) == Part(f, paths)
  {
    assert forall path :: path in paths ==> SameAt(e, f, path);
  }

  /** Where two directories are the same, so are their chunks. */
  lemma LayersAlike(z: Sizing, e: Layer, f: Layer, maxBytes: int, paths: set<string>)
    requires forall path :: path in paths ==> SameAt(e, f, path)
    ensures LayersOf(z, e, maxBytes, paths) == LayersOf(z, f, maxBytes, paths)
  {
    ChunksOfSame(z, e, f, maxBytes, paths);
    ChunkedHolds(Weighed(z, e, maxBytes), maxBytes, Sorted(paths), EMPTY);
    SortedHolds(paths);
    PartsOfSame(e, f, ChunksOf(z, e, maxBytes, paths));
  }

  lemma LayersApart(z: Sizing, entries: Layer, maxBytes: int, paths: set<string>, a: string)
    requires a in paths && Weighed(z, entries, maxBytes).ends(a)
    ensures LayersOf(z, entries, maxBytes, paths) ==
            LayersOf(z, entries, maxBytes, UpTo(paths, a)) + LayersOf(z, entries, maxBytes, After(paths, a))
  {
    SplitAt(z, entries, maxBytes, paths, a);
    PartsOfConcat(entries, ChunksOf(z, entries, maxBytes, UpTo(paths, a)), ChunksOf(z, entries, maxBytes, After(paths, a)));
  }

  /** Two directories the same up to an entry that ends a chunk share every chunk up to it. */
  lemma ChunksBeforeAreShared(z: Sizing, e: Layer, f: Layer, maxBytes: int, a: string)
    requires a in e && Weighed(z, e, maxBytes).ends(a)
    requires forall path :: path == a || Before(path, a) ==> SameAt(e, f, path)
    ensures LayersOf(z, e, maxBytes, e.Keys) ==
            LayersOf(z, e, maxBytes, UpTo(e.Keys, a)) + LayersOf(z, e, maxBytes, After(e.Keys, a))
    ensures LayersOf(z, f, maxBytes, f.Keys) ==
            LayersOf(z, e, maxBytes, UpTo(e.Keys, a)) + LayersOf(z, f, maxBytes, After(f.Keys, a))
  {
    assert SameAt(e, f, a);
    LayersApart(z, e, maxBytes, e.Keys, a);
    LayersApart(z, f, maxBytes, f.Keys, a);
    SameUpTo(e, f, a);
    LayersAlike(z, e, f, maxBytes, UpTo(e.Keys, a));
  }

  lemma SameUpTo(e: Layer, f: Layer, a: string)
    requires forall path :: path == a || Before(path, a) ==> SameAt(e, f, path)
    ensures UpTo(e.Keys, a) == UpTo(f.Keys, a)
  {
    forall path
      ensures path in UpTo(e.Keys, a) <==> path in UpTo(f.Keys, a)
    {
      if path == a || Before(path, a) {
        assert SameAt(e, f, path);
      }
    }
  }

  /** Two directories the same from an entry that ends a chunk on share every chunk after it. */
  lemma ChunksAfterAreShared(z: Sizing, e: Layer, f: Layer, maxBytes: int, b: string)
    requires b in e && Weighed(z, e, maxBytes).ends(b)
    requires forall path :: path == b || Before(b, path) ==> SameAt(e, f, path)
    ensures LayersOf(z, e, maxBytes, e.Keys) ==
            LayersOf(z, e, maxBytes, UpTo(e.Keys, b)) + LayersOf(z, e, maxBytes, After(e.Keys, b))
    ensures LayersOf(z, f, maxBytes, f.Keys) ==
            LayersOf(z, f, maxBytes, UpTo(f.Keys, b)) + LayersOf(z, e, maxBytes, After(e.Keys, b))
  {
    assert SameAt(e, f, b);
    LayersApart(z, e, maxBytes, e.Keys, b);
    LayersApart(z, f, maxBytes, f.Keys, b);
    SameAfter(e, f, b);
    LayersAlike(z, e, f, maxBytes, After(e.Keys, b));
  }

  lemma SameAfter(e: Layer, f: Layer, b: string)
    requires forall path :: path == b || Before(b, path) ==> SameAt(e, f, path)
    ensures After(e.Keys, b) == After(f.Keys, b)
  {
    forall path
      ensures path in After(e.Keys, b) <==> path in After(f.Keys, b)
    {
      if Before(b, path) {
        assert SameAt(e, f, path);
      }
    }
  }

  /**
   Two directories differing only between two entries that end chunks share every chunk up
   to the first and every chunk after the second, path for path and entry for entry.
   */
  lemma ChunkingIsLocal(z: Sizing, e: Layer, f: Layer, maxBytes: int, a: string, b: string)
    requires Before(a, b) && a in e && b in e
    requires Weighed(z, e, maxBytes).ends(a) && Weighed(z, e, maxBytes).ends(b)
    requires forall path :: !Inside(a, b, path) ==> SameAt(e, f, path)
    ensures ChunkPaths(z, e, maxBytes) ==
            ChunksOf(z, e, maxBytes, UpTo(e.Keys, a)) + ChunksOf(z, e, maxBytes, Between(e.Keys, a, b)) +
            ChunksOf(z, e, maxBytes, After(e.Keys, b))
    ensures ChunkPaths(z, f, maxBytes) ==
            ChunksOf(z, e, maxBytes, UpTo(e.Keys, a)) + ChunksOf(z, f, maxBytes, Between(f.Keys, a, b)) +
            ChunksOf(z, e, maxBytes, After(e.Keys, b))
    ensures LayersOf(z, e, maxBytes, UpTo(e.Keys, a)) == LayersOf(z, f, maxBytes, UpTo(f.Keys, a))
    ensures LayersOf(z, e, maxBytes, After(e.Keys, b)) == LayersOf(z, f, maxBytes, After(f.Keys, b))
  {
    EdgesAreOutside(a, b, a);
    EdgesAreOutside(a, b, b);
    assert SameAt(e, f, a) && SameAt(e, f, b);
    SplitTwice(z, e, maxBytes, a, b);
    SplitTwice(z, f, maxBytes, a, b);
    SameOutside(e, f, a, b);
    ChunksOfSame(z, e, f, maxBytes, UpTo(e.Keys, a));
    ChunksOfSame(z, e, f, maxBytes, After(e.Keys, b));
    LayersAlike(z, e, f, maxBytes, UpTo(e.Keys, a));
    LayersAlike(z, e, f, maxBytes, After(e.Keys, b));
  }
}
