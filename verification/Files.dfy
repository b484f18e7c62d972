/** A file written back from the bundle made for it is the file, plain or encrypted. */
module Files {
  import opened Wrappers
  import opened Text
  import opened Hex
  import opened PartPaths
  import opened Shapes
  import opened Parts
  import opened Reassembly

  // ---- Storing ------------------------------------------------------------

  /** A store with more in it, what it held left as it was, and no new object over the limit. */
  predicate Extends(before: Store, after: Store, maxObjectBytes: nat) {
    && (forall id :: id in before ==> id in after && after[id] == before[id])
    && (forall id :: id in after && id !in before ==> |after[id]| <= maxObjectBytes)
  }

  lemma OneMoreGenuine(store: Store, content: Bytes, data: Bytes, codec: Codec)
    requires Genuine(store, codec) && Stores(data, content, codec)
    ensures Genuine(store[IdOf(content, codec) := data], codec)
  {
  }

  /** A store with one object more, within the limit, if it held none under that name. */
  lemma OneMoreExtends(store: Store, content: Bytes, data: Bytes, maxObjectBytes: nat, codec: Codec)
    requires Genuine(store, codec) && Stores(data, content, codec) && |data| <= maxObjectBytes
    requires IdOf(content, codec) !in store
    ensures var after := store[IdOf(content, codec) := data];
            Extends(store, after, maxObjectBytes) && Genuine(after, codec)
  {
    OneMoreGenuine(store, content, data, codec);
  }

  lemma ObjectIsStored(store: Store, data: Bytes, maxObjectBytes: nat, codec: Codec)
    requires IsCodec(codec) && Genuine(store, codec) && |data| <= maxObjectBytes
    ensures var r := StoreObject(store, data, maxObjectBytes, codec);
            && r.stored == Some(IdOf(data, codec)) && IdOf(data, codec) in r.store
            && Extends(store, r.store, maxObjectBytes) && Genuine(r.store, codec)
  {
    if IdOf(data, codec) !in store {
      OneMoreExtends(store, data, Smaller(codec.compress(data), data), maxObjectBytes, codec);
    }
  }

  /** A part no longer than may be is always stored, within the limit, padding and all. */
  lemma PartIsStored(store: Store, part: Bytes, w: Writer, codec: Codec)
    requires IsCodec(codec) && Genuine(store, codec) && |part| <= PartBytes(w)
    ensures var r := StorePart(store, part, w, codec);
            && r.stored == Some(PathOfPart(part, w, codec)) && PathOfPart(part, w, codec).contentId in r.store
            && Extends(store, r.store, w.maxObjectBytes) && Genuine(r.store, codec)
  {
    if !w.encrypted {
      ObjectIsStored(store, part, w.maxObjectBytes, codec);
    } else {
      var ciphertext := CipherOf(part, codec);
      assert |ciphertext| <= w.maxObjectBytes;
      if IdOf(ciphertext, codec) !in store {
        OneMoreExtends(store, ciphertext, ciphertext, w.maxObjectBytes, codec);
      }
    }
  }

  predicate FitAll(parts: seq<Bytes>, w: Writer) {
    forall i :: 0 <= i < |parts| ==> |parts[i]| <= PartBytes(w)
  }

  predicate AllHeld(store: Store, parts: seq<Bytes>, w: Writer, codec: Codec) {
    forall i :: 0 <= i < |parts| ==> PathOfPart(parts[i], w, codec).contentId in store
  }

  lemma {:induction false} PartsAreStored(store: Store, parts: seq<Bytes>, w: Writer, codec: Codec)
    requires IsCodec(codec) && Genuine(store, codec) && FitAll(parts, w)
    ensures var r := StoreParts(store, parts, w, codec);
            && r.Some? && AllHeld(r.value, parts, w, codec)
            && Extends(store, r.value, w.maxObjectBytes) && Genuine(r.value, codec)
    decreases |parts|
  {
    if parts != [] {
      PartIsStored(store, parts[0], w, codec);
      var first := StorePart(store, parts[0], w, codec).store;
      PartsAreStored(first, parts[1..], w, codec);
      var last := StoreParts(first, parts[1..], w, codec).value;
      ExtendsTwice(store, first, last, w.maxObjectBytes);
      HeldWithFirst(last, parts, w, codec);
    }
  }

  lemma ExtendsTwice(a: Store, b: Store, c: Store, maxObjectBytes: nat)
    requires Extends(a, b, maxObjectBytes) && Extends(b, c, maxObjectBytes)
    ensures Extends(a, c, maxObjectBytes)
  {
  }

  lemma HeldWithFirst(store: Store, parts: seq<Bytes>, w: Writer, codec: Codec)
    requires parts != [] && PathOfPart(parts[0], w, codec).contentId in store && AllHeld(store, parts[1..], w, codec)
    ensures AllHeld(store, parts, w, codec)
  {
    assert forall i :: 0 < i < |parts| ==> parts[i] == parts[1..][i - 1];
  }

  // ---- Reading ------------------------------------------------------------

  /** `all` holds everything hashed as the parts are written and what is held is read. */
  ghost predicate Covers(all: set<Bytes>, store: Store, parts: seq<Bytes>, codec: Codec) {
    && (forall i :: 0 <= i < |parts| ==> CoversPart(all, parts[i], codec))
    && (forall id :: id in store ==> CoversHeld(all, store[id], codec))
  }

  predicate CoversHeld(all: set<Bytes>, data: Bytes, codec: Codec) {
    data in all && (codec.inflate(data).complete ==> Joined(codec.inflate(data).chunks) in all)
  }

  predicate CoversPart(all: set<Bytes>, part: Bytes, codec: Codec) {
    part in all && codec.compress(part) in all && CipherOf(part, codec) in all
  }

  /** A stream that reads `data` whole. */
  predicate Gives(stream: Stream, data: Bytes) {
    stream.error.None? && Joined(stream.chunks) == data
  }

  lemma SameHex(a: Bytes, b: Bytes)
    ensures Encode(a) == Encode(b) <==> a == b
  {
    DecodeOfEncode(a);
    DecodeOfEncode(b);
  }

  lemma JoinedOne(data: Bytes)
    ensures Joined([data]) == data
  {
    assert Joined([data][1..]) == [];
  }

  /** What is held for content, as itself or compressed, is read as that content. */
  lemma ContentReads(store: Store, content: Bytes, all: set<Bytes>, parts: seq<Bytes>, codec: Codec)
    requires Genuine(store, codec) && NoneCollide(all, codec) && Covers(all, store, parts, codec)
    requires content in all && IdOf(content, codec) in store
    ensures Gives(ContentChunks(store, IdOf(content, codec), codec), content)
  {
    var id := IdOf(content, codec);
    var data := store[id];
    SameHex(codec.hash(data), codec.hash(content));
    JoinedOne(data);
    if codec.hash(data) != codec.hash(content) {
      var held :| Stores(data, held, codec) && IdOf(held, codec) == id;
      IdTellsHash(held, content, codec);
      assert held != data;
      assert held == Joined(codec.inflate(data).chunks) == content;
    }
  }

  /** What a part's ciphertext decrypts to is read as the part, its key telling whether it was compressed. */
  lemma DecryptedReads(part: Bytes, all: set<Bytes>, codec: Codec)
    requires IsCodec(codec) && NoneCollide(all, codec) && CoversPart(all, part, codec)
    ensures Gives(MatchingChunks(Smaller(codec.compress(part), part), Encode(codec.hash(part)), codec), part)
  {
    var compressed := codec.compress(part);
    JoinedOne(part);
    if |compressed| < |part| {
      SameHex(codec.hash(compressed), codec.hash(part));
    }
  }

  /** Whether a part's ciphertext, if it is encrypted, is no larger than a reader takes. */
  predicate IsRead(part: Bytes, w: Writer, codec: Codec) {
    w.encrypted ==> |CipherOf(part, codec)| <= MAX_CIPHERTEXT_BYTES
  }

  /** A part held is read back exactly if its ciphertext is no larger than a reader takes. */
  lemma PartReads(store: Store, part: Bytes, w: Writer, all: set<Bytes>, parts: seq<Bytes>, codec: Codec)
    requires IsCodec(codec) && Genuine(store, codec) && NoneCollide(all, codec) && Covers(all, store, parts, codec)
    requires CoversPart(all, part, codec) && PathOfPart(part, w, codec).contentId in store
    ensures var stream := PartChunks(store, PathOfPart(part, w, codec), codec);
            if IsRead(part, w, codec) then Gives(stream, part) else stream == Stream([], Some(ReadError.Unsupported))
  {
    if !w.encrypted {
      ContentReads(store, part, all, parts, codec);
    } else {
      CipherReads(store, part, CipherOf(part, codec), all, parts, codec);
    }
  }

  lemma CipherReads(store: Store, part: Bytes, ciphertext: Bytes, all: set<Bytes>, parts: seq<Bytes>, codec: Codec)
    requires IsCodec(codec) && Genuine(store, codec) && NoneCollide(all, codec) && Covers(all, store, parts, codec)
    requires CoversPart(all, part, codec) && ciphertext == CipherOf(part, codec) && IdOf(ciphertext, codec) in store
    ensures var path := PartPath(IdOf(ciphertext, codec), Some(codec.hash(part)), DEFAULT_IV);
            var stream := PartChunks(store, path, codec);
            if |ciphertext| <= MAX_CIPHERTEXT_BYTES then Gives(stream, part)
            else stream == Stream([], Some(ReadError.Unsupported))
  {
    ContentReads(store, ciphertext, all, parts, codec);
    DecryptedReads(part, all, codec);
  }

  lemma {:induction false} WithinAll(chunks: seq<Bytes>, limit: int)
    requires |Joined(chunks)| <= limit
    ensures Within(chunks, limit) == chunks
  {
    if chunks != [] {
      WithinAll(chunks[1..], limit - |chunks[0]|);
    }
  }

  lemma {:induction false} WrittenAll(done: Bytes, chunks: seq<Bytes>, expectedBytes: Option<int>)
    requires !TooLong(done + Joined(chunks), expectedBytes)
    ensures Written(done, chunks, expectedBytes) == Some(done + Joined(chunks))
    decreases |chunks|
  {
    if chunks == [] {
      assert done + [] == done;
    } else {
      assert done + Joined(chunks) == (done + chunks[0]) + Joined(chunks[1..]);
      WrittenAll(done + chunks[0], chunks[1..], expectedBytes);
    }
  }

  function SomeSizes(parts: seq<Bytes>): (sizes: seq<Option<int>>)
    ensures |sizes| == |parts|
  {
    if parts == [] then [] else [Some(|parts[0]|)] + SomeSizes(parts[1..])
  }

  function PathsFor(parts: seq<Bytes>, w: Writer, codec: Codec): (paths: seq<PartPath>)
    ensures |paths| == |parts|
  {
    if parts == [] then [] else [PathOfPart(parts[0], w, codec)] + PathsFor(parts[1..], w, codec)
  }

  predicate AllRead(parts: seq<Bytes>, w: Writer, codec: Codec) {
    forall i :: 0 <= i < |parts| ==> IsRead(parts[i], w, codec)
  }

  /** Parts held are written out in order, each being read whole, into what they come to. */
  lemma {:induction false} PartsRead(store: Store, parts: seq<Bytes>, paths: seq<PartPath>, sizes: seq<Option<int>>,
                                     done: Bytes, target: Bytes, w: Writer, all: set<Bytes>, whole: seq<Bytes>, codec: Codec)
    requires IsCodec(codec) && Genuine(store, codec) && NoneCollide(all, codec) && Covers(all, store, whole, codec)
    requires forall i :: 0 <= i < |parts| ==> CoversPart(all, parts[i], codec)
    requires AllHeld(store, parts, w, codec) && AllRead(parts, w, codec)
    requires paths == PathsFor(parts, w, codec) && sizes == SomeSizes(parts) && target == done + Joined(parts)
    ensures WrittenParts(store, paths, sizes, done, Some(|target|), codec) == Success(target)
    decreases |parts|
  {
    if parts == [] {
      assert target == done;
    } else {
      var more := FirstRead(store, parts, done, target, w, all, whole, codec);
      RestIsRead(store, parts, all, w, codec);
      FirstAndRest(parts, w, codec);
      FirstWritten(store, paths, sizes, done, more, |target|, codec);
      PartsRead(store, parts[1..], paths[1..], sizes[1..], more, target, w, all, whole, codec);
    }
  }

  lemma FirstRead(store: Store, parts: seq<Bytes>, done: Bytes, target: Bytes, w: Writer, all: set<Bytes>,
                  whole: seq<Bytes>, codec: Codec)
    returns (more: Bytes)
    requires IsCodec(codec) && Genuine(store, codec) && NoneCollide(all, codec) && Covers(all, store, whole, codec)
    requires parts != [] && CoversPart(all, parts[0], codec) && target == done + Joined(parts)
    requires PathOfPart(parts[0], w, codec).contentId in store && IsRead(parts[0], w, codec)
    ensures target == more + Joined(parts[1..])
    ensures var stream := SizedChunks(store, PathOfPart(parts[0], w, codec), Some(|parts[0]|), codec);
            stream.error.None? && Written(done, stream.chunks, Some(|target|)) == Some(more)
  {
    more := TargetSplits(parts, done, target);
    PartReads(store, parts[0], w, all, whole, codec);
    OnePartRead(store, PathOfPart(parts[0], w, codec), parts[0], done, |target|, codec);
  }

  lemma TargetSplits(parts: seq<Bytes>, done: Bytes, target: Bytes) returns (more: Bytes)
    requires parts != [] && target == done + Joined(parts)
    ensures more == done + parts[0] && target == more + Joined(parts[1..]) && |done| + |parts[0]| <= |target|
  {
    more := done + parts[0];
    assert done + (parts[0] + Joined(parts[1..])) == more + Joined(parts[1..]);
  }

  lemma RestIsRead(store: Store, parts: seq<Bytes>, all: set<Bytes>, w: Writer, codec: Codec)
    requires parts != [] && forall i :: 0 <= i < |parts| ==> CoversPart(all, parts[i], codec)
    requires AllHeld(store, parts, w, codec) && AllRead(parts, w, codec)
    ensures forall i :: 0 <= i < |parts[1..]| ==> CoversPart(all, parts[1..][i], codec)
    ensures AllHeld(store, parts[1..], w, codec) && AllRead(parts[1..], w, codec)
  {
    assert forall i :: 0 <= i < |parts[1..]| ==> parts[1..][i] == parts[i + 1];
  }

  /** A first part written leaves the rest to write after it. */
  lemma FirstWritten(store: Store, paths: seq<PartPath>, sizes: seq<Option<int>>, done: Bytes, more: Bytes, total: nat,
                     codec: Codec)
    requires |paths| == |sizes| && paths != []
    requires var stream := SizedChunks(store, paths[0], sizes[0], codec);
             stream.error.None? && Written(done, stream.chunks, Some(total)) == Some(more)
    ensures WrittenParts(store, paths, sizes, done, Some(total), codec) ==
            WrittenParts(store, paths[1..], sizes[1..], more, Some(total), codec)
  {
  }

  /** A part that reads whole is written whole, its size being as recorded. */
  lemma OnePartRead(store: Store, path: PartPath, part: Bytes, done: Bytes, total: nat, codec: Codec)
    requires Gives(PartChunks(store, path, codec), part) && |done| + |part| <= total
    ensures var stream := SizedChunks(store, path, Some(|part|), codec);
            stream.error.None? && Written(done, stream.chunks, Some(total)) == Some(done + part)
  {
    var stream := PartChunks(store, path, codec);
    WithinAll(stream.chunks, |part|);
    WrittenAll(done, stream.chunks, Some(total));
  }

  lemma FirstAndRest(parts: seq<Bytes>, w: Writer, codec: Codec)
    requires parts != []
    ensures PathsFor(parts, w, codec)[1..] == PathsFor(parts[1..], w, codec)
    ensures SomeSizes(parts)[1..] == SomeSizes(parts[1..])
  {
  }

  lemma {:induction false} PathsParse(parts: seq<Bytes>, w: Writer, codec: Codec)
    requires IsCodec(codec)
    ensures ParsePaths(PathsOf(parts, w, codec)) == Success(PathsFor(parts, w, codec))
  {
    if parts != [] {
      ParseOfText(PathOfPart(parts[0], w, codec));
      PathsParse(parts[1..], w, codec);
      assert PathsOf(parts, w, codec)[1..] == PathsOf(parts[1..], w, codec);
    }
  }

  lemma {:induction false} NoneLacked(store: Store, paths: seq<PartPath>)
    requires forall i :: 0 <= i < |paths| ==> paths[i].contentId in store
    ensures Lacked(store, paths) == []
    decreases |paths|
  {
    if paths != [] {
      NoneLacked(store, paths[..|paths| - 1]);
    }
  }

  lemma {:induction false} PathsForAt(parts: seq<Bytes>, w: Writer, codec: Codec, i: nat)
    requires i < |parts|
    ensures PathsFor(parts, w, codec)[i] == PathOfPart(parts[i], w, codec)
  {
    if i > 0 {
      PathsForAt(parts[1..], w, codec, i - 1);
    }
  }

  lemma {:induction false} SizesAreGiven(parts: seq<Bytes>)
    ensures |SizesOf(parts)| == |parts|
    ensures forall i :: 0 <= i < |parts| ==> SizesOf(parts)[i] == |parts[i]| && SomeSizes(parts)[i] == Some(|parts[i]|)
  {
    if parts != [] {
      SizesAreGiven(parts[1..]);
    }
  }

  lemma {:induction false} PathsAreAsMany(parts: seq<Bytes>, w: Writer, codec: Codec)
    ensures |PathsOf(parts, w, codec)| == |parts|
  {
    if parts != [] {
      PathsAreAsMany(parts[1..], w, codec);
    }
  }

  lemma FileSizes(parts: seq<Bytes>, w: Writer, codec: Codec)
    ensures var file := FileFor(parts, w, codec);
            SizesGiven(file) == SomeSizes(parts) && |SizesGiven(file)| == |file.parts|
  {
    SizesAreGiven(parts);
    PathsAreAsMany(parts, w, codec);
    assert SizesGiven(FileFor(parts, w, codec)) == SomeSizes(parts);
  }

  lemma WholeFileIdReads(parts: seq<Bytes>, w: Writer, codec: Codec)
    requires IsCodec(codec)
    ensures WholeFileId(FileFor(parts, w, codec).metadata) == Success(Some(IdOf(Joined(parts), codec)))
  {
    var hash := Encode(codec.hash(Joined(parts)));
    assert IsLower(hash) && IsLower(HASH_ALGORITHM);
    LowerOfLower(hash);
    LowerOfLower(HASH_ALGORITHM);
  }

  /** From any genuine store that holds a file's parts, the file is read back whole. */
  lemma FileReads(store: Store, parts: seq<Bytes>, w: Writer, all: set<Bytes>, codec: Codec)
    requires IsCodec(codec) && Genuine(store, codec) && NoneCollide(all, codec) && Covers(all, store, parts, codec)
    requires AllHeld(store, parts, w, codec) && AllRead(parts, w, codec)
    requires |SizesGiven(FileFor(parts, w, codec))| == |FileFor(parts, w, codec).parts|
    ensures FileRead(store, FileFor(parts, w, codec), codec) == Success(Joined(parts))
  {
    var paths := PathsFor(parts, w, codec);
    FileSizes(parts, w, codec);
    PathsParse(parts, w, codec);
    WholeFileIdReads(parts, w, codec);
    forall i | 0 <= i < |paths| ensures paths[i].contentId in store {
      PathsForAt(parts, w, codec, i);
    }
    NoneLacked(store, paths);
    assert Joined(parts) == [] + Joined(parts);
    PartsRead(store, parts, paths, SomeSizes(parts), [], Joined(parts), w, all, parts, codec);
  }

  /**
   Writing a file from the bundle made for it gives back its bytes, plain or encrypted, from
   the store it was written into, whatever else that held, or any genuine store that holds
   its parts since. Every object stored is within the limit, and none held is changed.
   */
  lemma FileReadsBack(data: Bytes, w: Writer, before: Store, later: Store, all: set<Bytes>, codec: Codec)
    requires IsCodec(codec) && IsWriter(w) && w.maxObjectBytes <= MIB
    requires Genuine(before, codec) && Genuine(later, codec)
    requires NoneCollide(all, codec) && Covers(all, later, Cut(data, PartBytes(w)), codec)
    ensures var parts := Cut(data, PartBytes(w));
            var stored := StoreParts(before, parts, w, codec);
            && stored.Some? && Genuine(stored.value, codec) && Extends(before, stored.value, w.maxObjectBytes)
            && var file := FileFor(parts, w, codec);
               && |SizesGiven(file)| == |file.parts|
               && (AllHeld(later, parts, w, codec) ==> FileRead(later, file, codec) == Success(data))
               && AllHeld(stored.value, parts, w, codec)
  {
    var parts := Cut(data, PartBytes(w));
    CutIsWhole(data, PartBytes(w));
    PartsAreStored(before, parts, w, codec);
    FileSizes(parts, w, codec);
    if AllHeld(later, parts, w, codec) {
      forall i | 0 <= i < |parts| ensures IsRead(parts[i], w, codec) {
        assert |parts[i]| <= PartBytes(w);
      }
      FileReads(later, parts, w, all, codec);
    }
  }

  // ---- A codec there could be ---------------------------------------------

  const SHORT := HASH_BYTES - 1

  /** A hash that tells everything shorter than it apart: how long it is, what it is, and zeros. */
  function ShortHash(data: Bytes): Bytes {
    if |data| <= SHORT then [|data|] + data + seq(SHORT - |data|, _ => 0) else seq(HASH_BYTES, _ => 255)
  }

  /** Neither compression nor encryption changes anything. */
  function ShortCodec(): Codec {
    Codec(ShortHash, data => data, data => Inflated([data], true), (key, data) => data, (key, iv, data) => Some(data))
  }

  lemma ShortIsTold(a: Bytes, b: Bytes)
    requires |a| <= SHORT && |b| <= SHORT && ShortHash(a) == ShortHash(b)
    ensures a == b
  {
    assert ShortHash(a)[0] == |a| && ShortHash(b)[0] == |b|;
    assert a == ShortHash(a)[1..1 + |a|] && b == ShortHash(b)[1..1 + |b|];
  }

  function SetOf(parts: seq<Bytes>): set<Bytes> {
    set i | 0 <= i < |parts| :: parts[i]
  }

  lemma {:induction false} OnlyPartsStored(store: Store, parts: seq<Bytes>, all: set<Bytes>, w: Writer)
    requires forall id :: id in store ==> store[id] in all
    requires forall i :: 0 <= i < |parts| ==> parts[i] in all
    requires StoreParts(store, parts, w, ShortCodec()).Some?
    ensures var after := StoreParts(store, parts, w, ShortCodec()).value;
            forall id :: id in after ==> after[id] in all
    decreases |parts|
  {
    if parts != [] {
      assert CipherOf(parts[0], ShortCodec()) == parts[0];
      assert Smaller(ShortCodec().compress(parts[0]), parts[0]) == parts[0];
      OnlyPartsStored(StorePart(store, parts[0], w, ShortCodec()).store, parts[1..], all, w);
    }
  }

  lemma ShortCodecIs()
    ensures IsCodec(ShortCodec())
  {
    forall data: Bytes ensures Joined([data]) == data {
      JoinedOne(data);
    }
  }

  /**
   Nothing is asked of codecs that none could give: with this one, all that is asked holds of
   every file cut into parts shorter than its hash, however many and different they are.
   */
  lemma SomeCodecIs(data: Bytes, w: Writer)
    requires IsWriter(w) && PartBytes(w) <= SHORT
    ensures var codec, parts := ShortCodec(), Cut(data, PartBytes(w));
            var stored := StoreParts(map[], parts, w, codec);
            && IsCodec(codec) && Genuine(map[], codec) && stored.Some? && Genuine(stored.value, codec)
            && NoneCollide(SetOf(parts), codec) && Covers(SetOf(parts), stored.value, parts, codec)
            && |SizesGiven(FileFor(parts, w, codec))| == |FileFor(parts, w, codec).parts|
            && FileRead(stored.value, FileFor(parts, w, codec), codec) == Success(data)
  {
    var codec, parts := ShortCodec(), Cut(data, PartBytes(w));
    ShortCodecIs();
    PartsAreStored(map[], parts, w, codec);
    var stored := StoreParts(map[], parts, w, codec).value;
    ShortCovers(parts, w, stored);
    FileReadsBack(data, w, map[], stored, SetOf(parts), codec);
  }

  lemma ShortCovers(parts: seq<Bytes>, w: Writer, stored: Store)
    requires forall i :: 0 <= i < |parts| ==> |parts[i]| <= SHORT
    requires StoreParts(map[], parts, w, ShortCodec()) == Some(stored)
    ensures NoneCollide(SetOf(parts), ShortCodec()) && Covers(SetOf(parts), stored, parts, ShortCodec())
  {
    var codec, all := ShortCodec(), SetOf(parts);
    forall a, b | a in all && b in all && codec.hash(a) == codec.hash(b)
      ensures a == b
    {
      ShortIsTold(a, b);
    }
    OnlyPartsStored(map[], parts, all, w);
    forall id | id in stored
      ensures CoversHeld(all, stored[id], codec)
    {
      JoinedOne(stored[id]);
    }
  }

  /** Such as a file of two parts that differ. */
  lemma TwoPartsDiffer()
    ensures Cut([0, 1], 1) == [[0], [1]] && ShortHash([0]) != ShortHash([1])
  {
    var data: Bytes := [0, 1];
    assert data[..1] == [0] && data[1..] == [1];
    assert Cut([1], 1) == [[1]];
    if ShortHash([0]) == ShortHash([1]) {
      ShortIsTold([0], [1]);
      assert false;
    }
  }
}
