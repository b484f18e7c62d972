/** A file written back from its parts, each checked, and the whole checked too. */
module Reassembly {
  import opened Wrappers
  import opened Text
  import opened Hex
  import opened PartPaths
  import opened Shapes
  import opened Parts

  /** No node could have stored ciphertext larger than this. */
  const MAX_CIPHERTEXT_BYTES: nat := MIB

  datatype ReadError = Missing(ids: seq<ContentId>) | Unverified | Unsupported | Malformed

  /** What a read yields, a chunk at a time, before it ends or fails. */
  datatype Stream = Stream(chunks: seq<Bytes>, error: Option<ReadError>)

  // ---- One part -----------------------------------------------------------

  /** The content `data` holds, which must hash to `expected`: itself, or what it decompresses to. */
  function MatchingChunks(data: Bytes, expected: string, codec: Codec): Stream {
    if Encode(codec.hash(data)) == expected then Stream([data], None)
    else
      var inflated := codec.inflate(data);
      Stream(inflated.chunks,
             if inflated.complete && Encode(codec.hash(Joined(inflated.chunks))) == expected then None
             else Some(Unverified))
  }

  function ContentChunks(store: Store, id: ContentId, codec: Codec): Stream {
    if id !in store then Stream([], Some(Missing([id]))) else MatchingChunks(store[id], id.hash, codec)
  }

  /** The ciphertext held for a part, decrypted. */
  function Decrypted(store: Store, path: PartPath, key: Bytes, codec: Codec): Result<Bytes, ReadError> {
    var held := ContentChunks(store, path.contentId, codec);
    var ciphertext := Joined(held.chunks);
    if |ciphertext| > MAX_CIPHERTEXT_BYTES then Failure(ReadError.Unsupported)
    else if held.error.Some? then Failure(held.error.value)
    else match codec.decrypt(key, path.iv, ciphertext) case None => Failure(Unverified) case Some(data) => Success(data)
  }

  function PartChunks(store: Store, path: PartPath, codec: Codec): Stream {
    match path.key
    case None => ContentChunks(store, path.contentId, codec)
    case Some(key) =>
      match Decrypted(store, path, key, codec)
      case Failure(error) => Stream([], Some(error))
      case Success(data) => MatchingChunks(data, Encode(key), codec)
  }

  /** The chunks produced before there are more than `limit` bytes of them. */
  function Within(chunks: seq<Bytes>, limit: int): seq<Bytes> {
    if chunks == [] || |chunks[0]| > limit then [] else [chunks[0]] + Within(chunks[1..], limit - |chunks[0]|)
  }

  /** A part as it is read, no more of it than its size as a bundle records it. */
  function SizedChunks(store: Store, path: PartPath, size: Option<int>, codec: Codec): Stream {
    var stream := PartChunks(store, path, codec);
    if size.None? then stream
    else
      var within := Within(stream.chunks, size.value);
      if |within| < |stream.chunks| then Stream(within, Some(Unverified))
      else if stream.error.Some? then stream
      else if |Joined(stream.chunks)| != size.value then Stream(within, Some(Unverified))
      else stream
  }

  // ---- A whole file -------------------------------------------------------

  /** The hash a file must have, if its metadata gives one. */
  function WholeFileId(m: Metadata): Result<Option<ContentId>, ReadError> {
    if m.algorithm.None? || m.hash.None? then Success(None)
    else if Lower(m.algorithm.value) != HASH_ALGORITHM then Failure(ReadError.Unsupported)
    else if |m.hash.value| != HASH_DIGITS || !AllDigits(Lower(m.hash.value)) then Failure(ReadError.Malformed)
    else Success(Some(ContentId(HASH_ALGORITHM, Lower(m.hash.value))))
  }

  /** A file's bytes checked against its size and whole-file hash, as they are read. */
  class WholeFileCheck {
    const expected: Option<ContentId>
    const expectedBytes: Option<int>
    const codec: Codec
    var sizeBytes: nat
    var hashed: Bytes

    constructor (expected: Option<ContentId>, expectedBytes: Option<int>, codec: Codec)
      ensures this.expected == expected && this.expectedBytes == expectedBytes && this.codec == codec
      ensures hashed == [] && sizeBytes == 0
    {
      this.expected, this.expectedBytes, this.codec := expected, expectedBytes, codec;
      sizeBytes, hashed := 0, [];
    }

    method Update(data: Bytes) returns (ok: bool)
      requires sizeBytes == |hashed|
      modifies this
      ensures sizeBytes == |old(hashed)| + |data|
      ensures ok <==> !TooLong(old(hashed) + data, expectedBytes)
      ensures ok ==> hashed == old(hashed) + data
    {
      sizeBytes := sizeBytes + |data|;
      if expectedBytes.Some? && sizeBytes > expectedBytes.value {
        return false;
      }
      hashed := hashed + data;
      return true;
    }

    method Finish() returns (ok: bool)
      requires sizeBytes == |hashed|
      ensures ok <==> IsWhole(hashed, expected, expectedBytes, codec)
    {
      if expectedBytes.Some? && sizeBytes != expectedBytes.value {
        return false;
      }
      return expected.Some? ==> Encode(codec.hash(hashed)) == expected.value.hash;
    }
  }

  predicate TooLong(data: Bytes, expectedBytes: Option<int>) {
    expectedBytes.Some? && |data| > expectedBytes.value
  }

  predicate IsWhole(data: Bytes, expected: Option<ContentId>, expectedBytes: Option<int>, codec: Codec) {
    && (expectedBytes.Some? ==> |data| == expectedBytes.value)
    && (expected.Some? ==> Encode(codec.hash(data)) == expected.value.hash)
  }

  /** The chunks of a stream written after `done`, until the file is too long. */
  function Written(done: Bytes, chunks: seq<Bytes>, expectedBytes: Option<int>): Option<Bytes>
    decreases |chunks|
  {
    if chunks == [] then Some(done)
    else if TooLong(done + chunks[0], expectedBytes) then None
    else Written(done + chunks[0], chunks[1..], expectedBytes)
  }

  /** The parts of a file written after `done`, in order. */
  function WrittenParts(store: Store, paths: seq<PartPath>, sizes: seq<Option<int>>, done: Bytes,
                        expectedBytes: Option<int>, codec: Codec): Result<Bytes, ReadError>
    requires |sizes| == |paths|
    decreases |paths|
  {
    if paths == [] then Success(done)
    else
      var stream := SizedChunks(store, paths[0], sizes[0], codec);
      match Written(done, stream.chunks, expectedBytes)
      case None => Failure(Unverified)
      case Some(more) =>
        if stream.error.Some? then Failure(stream.error.value)
        else WrittenParts(store, paths[1..], sizes[1..], more, expectedBytes, codec)
  }

  function ParsePaths(texts: seq<string>): Result<seq<PartPath>, ReadError> {
    if texts == [] then Success([])
    else
      match ParsePath(texts[0])
      case Failure(error) => Failure(if error == NameError.Malformed then ReadError.Malformed else ReadError.Unsupported)
      case Success(path) =>
        var rest :- ParsePaths(texts[1..]);
        Success([path] + rest)
  }

  /** Those not held, each once, in the order given. */
  function Lacked(store: Store, paths: seq<PartPath>): seq<ContentId> {
    if paths == [] then []
    else
      var before, id := Lacked(store, paths[..|paths| - 1]), paths[|paths| - 1].contentId;
      if id in store || id in before then before else before + [id]
  }

  function SizesGiven(file: Entry): seq<Option<int>>
    requires file.File?
  {
    if file.partSizes.Some? then seq(|file.partSizes.value|, i requires 0 <= i < |file.partSizes.value| => Some(file.partSizes.value[i]))
    else seq(|file.parts|, _ => None)
  }

  /** What writing a file out gives, or fails with. */
  function FileRead(store: Store, file: Entry, codec: Codec): Result<Bytes, ReadError>
    requires file.File? && |SizesGiven(file)| == |file.parts|
  {
    match ParsePaths(file.parts)
    case Failure(error) => Failure(error)
    case Success(paths) =>
      match WholeFileId(file.metadata)
      case Failure(error) => Failure(error)
      case Success(expected) =>
        if Lacked(store, paths) != [] then Failure(Missing(Lacked(store, paths)))
        else if |paths| != |file.parts| then Failure(ReadError.Malformed)
        else
          match WrittenParts(store, paths, SizesGiven(file), [], file.metadata.sizeBytes, codec)
          case Failure(error) => Failure(error)
          case Success(data) =>
            if IsWhole(data, expected, file.metadata.sizeBytes, codec) then Success(data) else Failure(Unverified)
  }

  lemma {:induction false} AllAreParsed(texts: seq<string>)
    ensures ParsePaths(texts).Success? ==> |ParsePaths(texts).value| == |texts|
  {
    if texts != [] {
      AllAreParsed(texts[1..]);
    }
  }

  /** Writes a part out a chunk at a time. */
  method WriteChunks(chunks: seq<Bytes>, check: WholeFileCheck, before: Bytes) returns (ok: bool, output: Bytes)
    requires check.sizeBytes == |check.hashed| && check.hashed == before
    modifies check
    ensures match Written(before, chunks, check.expectedBytes)
            case None => !ok
            case Some(all) => ok && output == all && check.hashed == all && check.sizeBytes == |all|
  {
    output := before;
    var i := 0;
    while i < |chunks|
      invariant 0 <= i <= |chunks| && check.hashed == output && check.sizeBytes == |output|
      invariant Written(output, chunks[i..], check.expectedBytes) == Written(before, chunks, check.expectedBytes)
    {
      assert chunks[i..][1..] == chunks[i + 1..];
      var taken := check.Update(chunks[i]);
      if !taken {
        return false, output;
      }
      output := output + chunks[i];
      i := i + 1;
    }
    return true, output;
  }

  /** Writes the file `file` describes, every part being checked to be held before any is written. */
  method WriteFile(store: Store, file: Entry, codec: Codec) returns (r: Result<nat, ReadError>, output: Bytes)
    requires file.File? && |SizesGiven(file)| == |file.parts|
    ensures match FileRead(store, file, codec)
            case Failure(error) => r == Failure(error)
            case Success(data) => r == Success(|data|) && output == data
  {
    output := [];
    AllAreParsed(file.parts);
    var parsed := ParsePaths(file.parts);
    if parsed.Failure? {
      return Failure(parsed.error), output;
    }
    var paths := parsed.value;
    var expected := WholeFileId(file.metadata);
    if expected.Failure? {
      return Failure(expected.error), output;
    }
    var check := new WholeFileCheck(expected.value, file.metadata.sizeBytes, codec);
    var lacked := Lacked(store, paths);
    if lacked != [] {
      return Failure(Missing(lacked)), output;
    }
    var sizes := SizesGiven(file);
    ghost var all := WrittenParts(store, paths, sizes, [], file.metadata.sizeBytes, codec);
    var i := 0;
    while i < |paths|
      invariant 0 <= i <= |paths| == |sizes| && check.hashed == output && check.sizeBytes == |output|
      invariant WrittenParts(store, paths[i..], sizes[i..], output, file.metadata.sizeBytes, codec) == all
    {
      assert paths[i..][1..] == paths[i + 1..] && sizes[i..][1..] == sizes[i + 1..];
      var stream := SizedChunks(store, paths[i], sizes[i], codec);
      var ok, more := WriteChunks(stream.chunks, check, output);
      if !ok {
        return Failure(Unverified), more;
      }
      if stream.error.Some? {
        return Failure(stream.error.value), more;
      }
      output := more;
      i := i + 1;
    }
    var whole := check.Finish();
    if !whole {
      return Failure(Unverified), output;
    }
    return Success(check.sizeBytes), output;
  }
}
