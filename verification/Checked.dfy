/** Exactly what is stored of a part, and what a file may be read as, whatever is held. */
module Checked {
  import opened Wrappers
  import opened Text
  import opened Hex
  import opened PartPaths
  import opened Shapes
  import opened Parts
  import opened Reassembly
  import opened Files

  // ---- Storing a part -----------------------------------------------------

  /** What is held for `content` when it is stored: compressed, if that is smaller. */
  function Kept(content: Bytes, codec: Codec): Bytes {
    if |codec.compress(content)| < |content| then codec.compress(content) else content
  }

  /** `data` named by its hash. */
  function Named(data: Bytes, codec: Codec): ContentId {
    ContentId("sha256", Encode(codec.hash(data)))
  }

  /**
   A part is stored under its own hash, compressed if that is smaller; or, encrypted, so with its
   hash as the key, under the hash of the ciphertext. It is if and only if it is held already or
   no larger than allowed, and what was held stays.
   */
  lemma PartIsStoredExactly(store: Store, part: Bytes, w: Writer, codec: Codec)
    ensures var after := StorePart(store, part, w, codec);
            var ciphertext := codec.encrypt(codec.hash(part), Kept(part, codec));
            var id := if w.encrypted then Named(ciphertext, codec) else Named(part, codec);
            var data := if w.encrypted then ciphertext else Kept(part, codec);
            && (after.stored.Some? <==> id in store || |data| <= w.maxObjectBytes)
            && (after.stored.Some? ==>
                  after.stored.value == PartPath(id, if w.encrypted then Some(codec.hash(part)) else None, DEFAULT_IV))
            && after.store == (if id in store || after.stored.None? then store else store[id := data])
  {
  }

  /** A part is as large as may be: a block short of the limit where it is encrypted. */
  lemma PartsAreAsLargeAsMayBe(data: Bytes, w: Writer, i: nat)
    requires IsWriter(w) && i < |Cut(data, PartBytes(w))|
    ensures var parts, most := Cut(data, PartBytes(w)), if w.encrypted then w.maxObjectBytes - 16 else w.maxObjectBytes;
            Joined(parts) == data && 0 < |parts[i]| <= most && (i < |parts| - 1 ==> |parts[i]| == most)
  {
    CutIsWhole(data, PartBytes(w));
  }

  /** What a file is described as: its parts by name and size, its whole size, and its hash. */
  lemma FileIsDescribed(parts: seq<Bytes>, w: Writer, codec: Codec)
    ensures var file, data := FileFor(parts, w, codec), Joined(parts);
            && file.File? && |file.parts| == |parts| && file.partSizes.Some? && |file.partSizes.value| == |parts|
            && (forall i :: 0 <= i < |parts| ==>
                  file.parts[i] == PathText(PathOfPart(parts[i], w, codec)) && file.partSizes.value[i] == |parts[i]|)
            && file.metadata == Metadata(None, None, Some(|data|), false, false, Some("sha256"),
                                         Some(Encode(codec.hash(data))), map[], None)
            && file.versions == []
  {
    forall i | 0 <= i < |parts|
      ensures |PathsOf(parts, w, codec)| == |parts| == |SizesOf(parts)|
      ensures PathsOf(parts, w, codec)[i] == PathText(PathOfPart(parts[i], w, codec)) && SizesOf(parts)[i] == |parts[i]|
    {
      PartIsDescribed(parts, w, codec, i);
    }
  }

  lemma {:induction false} PartIsDescribed(parts: seq<Bytes>, w: Writer, codec: Codec, i: nat)
    requires i < |parts|
    ensures |PathsOf(parts, w, codec)| == |parts| == |SizesOf(parts)|
    ensures PathsOf(parts, w, codec)[i] == PathText(PathOfPart(parts[i], w, codec)) && SizesOf(parts)[i] == |parts[i]|
    decreases |parts|
  {
    if i > 0 {
      PartIsDescribed(parts[1..], w, codec, i - 1);
    } else if |parts| > 1 {
      PartIsDescribed(parts[1..], w, codec, 0);
    }
  }

  // ---- Reading a part -----------------------------------------------------

  /** Whether `held` holds `content`, which hashes to `expected`: itself, or else one zlib stream of it. */
  predicate Holds(held: Bytes, expected: string, content: Bytes, codec: Codec) {
    if Encode(codec.hash(held)) == expected then content == held
    else
      codec.inflate(held).complete && Joined(codec.inflate(held).chunks) == content && Encode(codec.hash(content)) == expected
  }

  lemma MatchingExactly(held: Bytes, expected: string, content: Bytes, codec: Codec)
    ensures var stream := MatchingChunks(held, expected, codec);
            stream.error.None? && Joined(stream.chunks) == content <==> Holds(held, expected, content, codec)
  {
    assert Joined([held][1..]) == [];
  }

  /** Whether `store` holds `ciphertext` of a part, no larger than a reader takes, that is `content` decrypted. */
  predicate Decrypts(store: Store, path: PartPath, key: Bytes, ciphertext: Bytes, content: Bytes, codec: Codec) {
    && path.contentId in store && Holds(store[path.contentId], path.contentId.hash, ciphertext, codec)
    && |ciphertext| <= 1024 * 1024
    && codec.decrypt(key, path.iv, ciphertext).Some?
    && Holds(codec.decrypt(key, path.iv, ciphertext).value, Encode(key), content, codec)
  }

  /** Whether what is held at `path` is a part of this content. */
  ghost predicate IsPartOf(store: Store, path: PartPath, content: Bytes, codec: Codec) {
    match path.key
    case None => path.contentId in store && Holds(store[path.contentId], path.contentId.hash, content, codec)
    case Some(key) => exists ciphertext :: Decrypts(store, path, key, ciphertext, content, codec)
  }

  lemma ContentExactly(store: Store, id: ContentId, content: Bytes, codec: Codec)
    ensures var stream := ContentChunks(store, id, codec);
            stream.error.None? && Joined(stream.chunks) == content <==>
            id in store && Holds(store[id], id.hash, content, codec)
  {
    if id in store {
      MatchingExactly(store[id], id.hash, content, codec);
    }
  }

  lemma DecryptedExactly(store: Store, path: PartPath, key: Bytes, content: Bytes, codec: Codec)
    ensures Decrypted(store, path, key, codec).Success? &&
            Holds(Decrypted(store, path, key, codec).value, Encode(key), content, codec) <==>
            exists ciphertext :: Decrypts(store, path, key, ciphertext, content, codec)
  {
    var held := ContentChunks(store, path.contentId, codec);
    var ciphertext := Joined(held.chunks);
    ContentExactly(store, path.contentId, ciphertext, codec);
    if Decrypted(store, path, key, codec).Success? &&
       Holds(Decrypted(store, path, key, codec).value, Encode(key), content, codec) {
      assert Decrypts(store, path, key, ciphertext, content, codec);
    }
    forall other | Decrypts(store, path, key, other, content, codec)
      ensures other == ciphertext && held.error.None?
    {
      ContentExactly(store, path.contentId, other, codec);
    }
  }

  /** A part is read without error, as some content, if and only if what is held is a part of it. */
  lemma PartExactly(store: Store, path: PartPath, content: Bytes, codec: Codec)
    ensures var stream := PartChunks(store, path, codec);
            stream.error.None? && Joined(stream.chunks) == content <==> IsPartOf(store, path, content, codec)
  {
    match path.key {
      case None => ContentExactly(store, path.contentId, content, codec);
      case Some(key) =>
        DecryptedExactly(store, path, key, content, codec);
        if Decrypted(store, path, key, codec).Success? {
          MatchingExactly(Decrypted(store, path, key, codec).value, Encode(key), content, codec);
        }
    }
  }

  lemma {:induction false} WithinAll(chunks: seq<Bytes>, limit: int)
    ensures |Joined(chunks)| <= limit ==> Within(chunks, limit) == chunks
    ensures |Within(chunks, limit)| <= |chunks|
    decreases |chunks|
  {
    if chunks != [] {
      WithinAll(chunks[1..], limit - |chunks[0]|);
    }
  }

  /** Read with the size a bundle records, if it does, it must be that long. */
  lemma SizedExactly(store: Store, path: PartPath, size: Option<int>, content: Bytes, codec: Codec)
    ensures var stream := SizedChunks(store, path, size, codec);
            stream.error.None? && Joined(stream.chunks) == content <==>
            IsPartOf(store, path, content, codec) && (size.Some? ==> |content| == size.value)
  {
    var stream := PartChunks(store, path, codec);
    PartExactly(store, path, content, codec);
    PartExactly(store, path, Joined(stream.chunks), codec);
    if size.Some? {
      WithinAll(stream.chunks, size.value);
    }
  }

  lemma {:induction false} WithinIsNoMore(chunks: seq<Bytes>, limit: nat)
    ensures |Joined(Within(chunks, limit))| <= limit
    ensures |Within(chunks, limit)| >= |chunks| ==> Within(chunks, limit) == chunks
    decreases |chunks|
  {
    if chunks != [] && |chunks[0]| <= limit {
      WithinIsNoMore(chunks[1..], limit - |chunks[0]|);
      WithinAll(chunks[1..], limit - |chunks[0]|);
      assert Within(chunks, limit)[1..] == Within(chunks[1..], limit - |chunks[0]|);
    }
  }

  /** And no more of it is read, whether it is in the end or not. */
  lemma NoMoreIsRead(store: Store, path: PartPath, size: nat, codec: Codec)
    ensures |Joined(SizedChunks(store, path, Some(size), codec).chunks)| <= size
  {
    WithinIsNoMore(PartChunks(store, path, codec).chunks, size);
  }

  // ---- Reading a file -----------------------------------------------------

  /** Whether what is held at `paths` are parts of `contents`, each of the size recorded. */
  ghost predicate AreParts(store: Store, paths: seq<PartPath>, sizes: seq<Option<int>>, contents: seq<Bytes>, codec: Codec) {
    && |paths| == |sizes| == |contents|
    && forall i :: 0 <= i < |paths| ==>
         IsPartOf(store, paths[i], contents[i], codec) && (sizes[i].Some? ==> |contents[i]| == sizes[i].value)
  }

  lemma {:induction false} WrittenIs(done: Bytes, chunks: seq<Bytes>, expectedBytes: Option<int>)
    ensures Written(done, chunks, expectedBytes) ==
            if chunks != [] && TooLong(done + Joined(chunks), expectedBytes) then None else Some(done + Joined(chunks))
    decreases |chunks|
  {
    if chunks == [] {
      assert done + [] == done;
    } else {
      assert done + Joined(chunks) == (done + chunks[0]) + Joined(chunks[1..]);
      WrittenIs(done + chunks[0], chunks[1..], expectedBytes);
    }
  }

  lemma WrittenStep(store: Store, paths: seq<PartPath>, sizes: seq<Option<int>>, done: Bytes, expectedBytes: Option<int>,
                    codec: Codec, stream: Stream)
    requires |sizes| == |paths| && paths != [] && stream == SizedChunks(store, paths[0], sizes[0], codec)
    ensures WrittenParts(store, paths, sizes, done, expectedBytes, codec) ==
            match Written(done, stream.chunks, expectedBytes)
            case None => Failure(Unverified)
            case Some(more) =>
              if stream.error.Some? then Failure(stream.error.value)
              else WrittenParts(store, paths[1..], sizes[1..], more, expectedBytes, codec)
  {
  }

  lemma FirstIsWritten(store: Store, paths: seq<PartPath>, sizes: seq<Option<int>>, done: Bytes, expectedBytes: Option<int>,
                       codec: Codec) returns (content: Bytes)
    requires |sizes| == |paths| && paths != []
    requires WrittenParts(store, paths, sizes, done, expectedBytes, codec).Success?
    ensures IsPartOf(store, paths[0], content, codec) && (sizes[0].Some? ==> |content| == sizes[0].value)
    ensures WrittenParts(store, paths, sizes, done, expectedBytes, codec) ==
            WrittenParts(store, paths[1..], sizes[1..], done + content, expectedBytes, codec)
  {
    var stream := SizedChunks(store, paths[0], sizes[0], codec);
    content := Joined(stream.chunks);
    WrittenStep(store, paths, sizes, done, expectedBytes, codec, stream);
    WrittenIs(done, stream.chunks, expectedBytes);
    SizedExactly(store, paths[0], sizes[0], content, codec);
  }

  lemma WritesFirst(store: Store, paths: seq<PartPath>, sizes: seq<Option<int>>, done: Bytes, contents: seq<Bytes>,
                    expectedBytes: Option<int>, codec: Codec)
    requires paths != [] && AreParts(store, paths, sizes, contents, codec) && !TooLong(done + Joined(contents), expectedBytes)
    ensures WrittenParts(store, paths, sizes, done, expectedBytes, codec) ==
            WrittenParts(store, paths[1..], sizes[1..], done + contents[0], expectedBytes, codec)
  {
    var stream := SizedChunks(store, paths[0], sizes[0], codec);
    SizedExactly(store, paths[0], sizes[0], contents[0], codec);
    WrittenIs(done, stream.chunks, expectedBytes);
    WrittenStep(store, paths, sizes, done, expectedBytes, codec, stream);
    Regrouped(done, contents[0], Joined(contents[1..]));
  }

  lemma RestAreParts(store: Store, paths: seq<PartPath>, sizes: seq<Option<int>>, contents: seq<Bytes>, codec: Codec)
    requires paths != [] && AreParts(store, paths, sizes, contents, codec)
    ensures AreParts(store, paths[1..], sizes[1..], contents[1..], codec)
  {
  }

  /** What is written are the parts held, in order. */
  lemma {:induction false} WrittenAreParts(store: Store, paths: seq<PartPath>, sizes: seq<Option<int>>, done: Bytes,
                                           expectedBytes: Option<int>, codec: Codec) returns (contents: seq<Bytes>)
    requires |sizes| == |paths| && WrittenParts(store, paths, sizes, done, expectedBytes, codec).Success?
    ensures AreParts(store, paths, sizes, contents, codec)
    ensures WrittenParts(store, paths, sizes, done, expectedBytes, codec).value == done + Joined(contents)
    decreases |paths|
  {
    if paths == [] {
      contents := [];
      assert done + [] == done;
    } else {
      var content := FirstIsWritten(store, paths, sizes, done, expectedBytes, codec);
      var rest := WrittenAreParts(store, paths[1..], sizes[1..], done + content, expectedBytes, codec);
      contents := [content] + rest;
      FirstOfParts(store, paths, sizes, content, rest, codec);
      Regrouped(done, content, Joined(rest));
    }
  }

  lemma FirstOfParts(store: Store, paths: seq<PartPath>, sizes: seq<Option<int>>, content: Bytes, rest: seq<Bytes>, codec: Codec)
    requires paths != [] && |sizes| == |paths| && AreParts(store, paths[1..], sizes[1..], rest, codec)
    requires IsPartOf(store, paths[0], content, codec) && (sizes[0].Some? ==> |content| == sizes[0].value)
    ensures AreParts(store, paths, sizes, [content] + rest, codec) && Joined([content] + rest) == content + Joined(rest)
  {
    var contents := [content] + rest;
    assert contents[1..] == rest;
    forall i | 0 <= i < |paths|
      ensures IsPartOf(store, paths[i], contents[i], codec) && (sizes[i].Some? ==> |contents[i]| == sizes[i].value)
    {
      if i > 0 {
        assert paths[i] == paths[1..][i - 1] && sizes[i] == sizes[1..][i - 1] && contents[i] == rest[i - 1];
      }
    }
  }

  /** Parts held are written, unless they come to more than the file. */
  lemma {:induction false} PartsAreWritten(store: Store, paths: seq<PartPath>, sizes: seq<Option<int>>, done: Bytes,
                                           contents: seq<Bytes>, expectedBytes: Option<int>, codec: Codec)
    requires AreParts(store, paths, sizes, contents, codec) && !TooLong(done + Joined(contents), expectedBytes)
    ensures WrittenParts(store, paths, sizes, done, expectedBytes, codec) == Success(done + Joined(contents))
    decreases |paths|
  {
    if paths == [] {
      assert done + [] == done;
    } else {
      WritesFirst(store, paths, sizes, done, contents, expectedBytes, codec);
      RestAreParts(store, paths, sizes, contents, codec);
      Regrouped(done, contents[0], Joined(contents[1..]));
      PartsAreWritten(store, paths[1..], sizes[1..], done + contents[0], contents[1..], expectedBytes, codec);
    }
  }

  ghost predicate ParseAs(texts: seq<string>, paths: seq<PartPath>) {
    |texts| == |paths| && forall i :: 0 <= i < |texts| ==> ParsePath(texts[i]) == Success(paths[i])
  }

  lemma {:induction false} ParsePathsExactly(texts: seq<string>, paths: seq<PartPath>)
    ensures ParsePaths(texts) == Success(paths) <==> ParseAs(texts, paths)
    decreases |texts|
  {
    if texts != [] && paths != [] {
      ParsePathsExactly(texts[1..], paths[1..]);
      assert paths == [paths[0]] + paths[1..];
      assert ParseAs(texts, paths) <==> ParsePath(texts[0]) == Success(paths[0]) && ParseAs(texts[1..], paths[1..]) by {
        ParseAsOne(texts, paths);
      }
    }
  }

  lemma ParseAsOne(texts: seq<string>, paths: seq<PartPath>)
    requires texts != [] && paths != []
    ensures ParseAs(texts, paths) <==> ParsePath(texts[0]) == Success(paths[0]) && ParseAs(texts[1..], paths[1..])
  {
    if ParsePath(texts[0]) == Success(paths[0]) && ParseAs(texts[1..], paths[1..]) {
      forall i | 0 <= i < |texts|
        ensures ParsePath(texts[i]) == Success(paths[i])
      {
        assert i > 0 ==> texts[i] == texts[1..][i - 1] && paths[i] == paths[1..][i - 1];
      }
    }
  }

  predicate IsNamed(paths: seq<PartPath>, id: ContentId) {
    exists i :: 0 <= i < |paths| && paths[i].contentId == id
  }

  lemma NamedByOneMore(paths: seq<PartPath>, last: PartPath, id: ContentId)
    ensures IsNamed(paths + [last], id) <==> IsNamed(paths, id) || last.contentId == id
  {
    var more := paths + [last];
    assert more[|paths|] == last;
    if IsNamed(paths, id) {
      var i :| 0 <= i < |paths| && paths[i].contentId == id;
      assert more[i].contentId == id;
    }
  }

  /** Those lacking are exactly those named that are not held, each once. */
  lemma {:induction false} LackedExactly(store: Store, paths: seq<PartPath>)
    ensures forall id :: id in Lacked(store, paths) <==> id !in store && IsNamed(paths, id)
    ensures forall i, j :: 0 <= i < j < |Lacked(store, paths)| ==> Lacked(store, paths)[i] != Lacked(store, paths)[j]
    decreases |paths|
  {
    if paths != [] {
      var front, last := paths[..|paths| - 1], paths[|paths| - 1];
      LackedExactly(store, front);
      assert paths == front + [last];
      forall id
        ensures IsNamed(paths, id) <==> IsNamed(front, id) || last.contentId == id
      {
        NamedByOneMore(front, last, id);
      }
    }
  }

  /** Whether a file may be read as `contents` joined: parts held of it, of its size and its whole-file hash. */
  ghost predicate ReadsAs(store: Store, file: Entry, paths: seq<PartPath>, contents: seq<Bytes>, codec: Codec)
    requires file.File?
  {
    var m, data := file.metadata, Joined(contents);
    && ParseAs(file.parts, paths) && AreParts(store, paths, SizesGiven(file), contents, codec)
    && (m.sizeBytes.Some? ==> |data| == m.sizeBytes.value)
    && (m.algorithm.Some? && m.hash.Some? ==>
          && Lower(m.algorithm.value) == "sha256" && |m.hash.value| == 64 && AllDigits(Lower(m.hash.value))
          && Encode(codec.hash(data)) == Lower(m.hash.value))
  }

  /** Whatever is held, what a file is read as is checked: every part, its size and its hash. */
  lemma ReadIsChecked(store: Store, file: Entry, codec: Codec) returns (paths: seq<PartPath>, contents: seq<Bytes>)
    requires file.File? && |SizesGiven(file)| == |file.parts| && FileRead(store, file, codec).Success?
    ensures ReadsAs(store, file, paths, contents, codec) && FileRead(store, file, codec).value == Joined(contents)
  {
    paths := ParsePaths(file.parts).value;
    ParsePathsExactly(file.parts, paths);
    contents := WrittenAreParts(store, paths, SizesGiven(file), [], file.metadata.sizeBytes, codec);
    assert [] + Joined(contents) == Joined(contents);
  }

  /** And a file that passes every check is read. */
  lemma CheckedIsRead(store: Store, file: Entry, paths: seq<PartPath>, contents: seq<Bytes>, codec: Codec)
    requires file.File? && |SizesGiven(file)| == |file.parts| && ReadsAs(store, file, paths, contents, codec)
    ensures FileRead(store, file, codec) == Success(Joined(contents))
  {
    ParsePathsExactly(file.parts, paths);
    LackedExactly(store, paths);
    NoneIsLacked(store, paths, SizesGiven(file), contents, codec);
    assert [] + Joined(contents) == Joined(contents);
    PartsAreWritten(store, paths, SizesGiven(file), [], contents, file.metadata.sizeBytes, codec);
  }

  lemma NoneIsLacked(store: Store, paths: seq<PartPath>, sizes: seq<Option<int>>, contents: seq<Bytes>, codec: Codec)
    requires AreParts(store, paths, sizes, contents, codec)
    ensures Lacked(store, paths) == []
  {
    forall i | 0 <= i < |paths|
      ensures paths[i].contentId in store
    {
      assert IsPartOf(store, paths[i], contents[i], codec);
    }
    NoneLacked(store, paths);
  }

  /** A file some of whose parts are not held fails naming exactly those, each once. */
  lemma LackingIsNamed(store: Store, file: Entry, paths: seq<PartPath>, codec: Codec)
    requires file.File? && |SizesGiven(file)| == |file.parts| && ParseAs(file.parts, paths)
    requires WholeFileId(file.metadata).Success? && exists i :: 0 <= i < |paths| && paths[i].contentId !in store
    ensures FileRead(store, file, codec).Failure? && FileRead(store, file, codec).error.Missing?
    ensures var ids := FileRead(store, file, codec).error.ids;
            && (forall id :: id in ids <==> id !in store && IsNamed(paths, id))
            && (forall i, j :: 0 <= i < j < |ids| ==> ids[i] != ids[j])
  {
    ParsePathsExactly(file.parts, paths);
    LackedExactly(store, paths);
    var i :| 0 <= i < |paths| && paths[i].contentId !in store;
    assert IsNamed(paths, paths[i].contentId);
    assert paths[i].contentId in Lacked(store, paths);
  }
}
