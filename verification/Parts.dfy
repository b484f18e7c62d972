/** Parts of a file, stored as they are or encrypted under their own hash, and read back checked. */
module Parts {
  import opened Wrappers
  import opened Hex
  import opened PartPaths
  import opened Shapes

  const MIB: nat := 1024 * 1024
  const HASH_BYTES: nat := 32

  /** What a stream yields, and whether it was one complete stream. */
  datatype Inflated = Inflated(chunks: seq<Bytes>, complete: bool)

  /** The hash, the compression and the cipher, left abstract. */
  datatype Codec = Codec(
    hash: Bytes -> Bytes,
    compress: Bytes -> Bytes,
    inflate: Bytes -> Inflated,
    encrypt: (Bytes, Bytes) -> Bytes,
    decrypt: (Bytes, Bytes, Bytes) -> Option<Bytes>)

  function Joined(chunks: seq<Bytes>): Bytes {
    if chunks == [] then [] else chunks[0] + Joined(chunks[1..])
  }

  /** What each undoes, and how long ciphertext may be: a block more than what is encrypted. */
  ghost predicate IsCodec(codec: Codec) {
    && (forall data :: |codec.hash(data)| == HASH_BYTES)
    && (forall data :: codec.inflate(codec.compress(data)).complete &&
                       Joined(codec.inflate(codec.compress(data)).chunks) == data)
    && (forall key, data :: codec.decrypt(key, DEFAULT_IV, codec.encrypt(key, data)) == Some(data))
    && (forall key, data :: |codec.encrypt(key, data)| <= |data| + BLOCK_BYTES)
  }

  /** No two of `all` hash alike. */
  ghost predicate NoneCollide(all: set<Bytes>, codec: Codec) {
    forall a, b :: a in all && b in all && codec.hash(a) == codec.hash(b) ==> a == b
  }

  function IdOf(data: Bytes, codec: Codec): ContentId {
    ContentId(HASH_ALGORITHM, Encode(codec.hash(data)))
  }

  lemma IdTellsHash(a: Bytes, b: Bytes, codec: Codec)
    requires IdOf(a, codec) == IdOf(b, codec)
    ensures codec.hash(a) == codec.hash(b)
  {
    DecodeOfEncode(codec.hash(a));
    DecodeOfEncode(codec.hash(b));
  }

  // ---- What is held -------------------------------------------------------

  type Store = map<ContentId, Bytes>

  /** Whether `data` is `content`, or one complete zlib stream of it. */
  predicate Stores(data: Bytes, content: Bytes, codec: Codec) {
    data == content || (codec.inflate(data).complete && Joined(codec.inflate(data).chunks) == content)
  }

  /** Every object held is its content, or one complete zlib stream of it. */
  ghost predicate Genuine(store: Store, codec: Codec) {
    forall id :: id in store ==> exists content :: Stores(store[id], content, codec) && IdOf(content, codec) == id
  }

  // ---- Writing ------------------------------------------------------------

  datatype Writer = Writer(maxObjectBytes: nat, encrypted: bool)

  /** The most bytes one part holds: a block short of the limit where padding may add one. */
  function PartBytes(w: Writer): int {
    if w.encrypted then w.maxObjectBytes - BLOCK_BYTES else w.maxObjectBytes
  }

  predicate IsWriter(w: Writer) {
    PartBytes(w) >= 1
  }

  /** `None` for what is not held and too large to store. */
  datatype Attempt<T> = Attempt(stored: Option<T>, store: Store)

  function Smaller(compressed: Bytes, data: Bytes): Bytes {
    if |compressed| < |data| then compressed else data
  }

  function StoreObject(store: Store, data: Bytes, maxObjectBytes: nat, codec: Codec): Attempt<ContentId> {
    var id, kept := IdOf(data, codec), Smaller(codec.compress(data), data);
    if id in store then Attempt(Some(id), store)
    else if |kept| > maxObjectBytes then Attempt(None, store)
    else Attempt(Some(id), store[id := kept])
  }

  /** A part's ciphertext, under its own hash, compressed first where that is smaller. */
  function CipherOf(part: Bytes, codec: Codec): Bytes {
    codec.encrypt(codec.hash(part), Smaller(codec.compress(part), part))
  }

  function StorePart(store: Store, part: Bytes, w: Writer, codec: Codec): Attempt<PartPath> {
    if !w.encrypted then
      var plain := StoreObject(store, part, w.maxObjectBytes, codec);
      match plain.stored
      case None => Attempt(None, plain.store)
      case Some(id) => Attempt(Some(Plain(id)), plain.store)
    else
      var ciphertext := CipherOf(part, codec);
      var id := IdOf(ciphertext, codec);
      var path := PartPath(id, Some(codec.hash(part)), DEFAULT_IV);
      if id in store then Attempt(Some(path), store)
      else if |ciphertext| > w.maxObjectBytes then Attempt(None, store)
      else Attempt(Some(path), store[id := ciphertext])
  }

  /** How a part is named once stored. */
  function PathOfPart(part: Bytes, w: Writer, codec: Codec): PartPath {
    if w.encrypted then PartPath(IdOf(CipherOf(part, codec), codec), Some(codec.hash(part)), DEFAULT_IV)
    else Plain(IdOf(part, codec))
  }

  function PathsOf(parts: seq<Bytes>, w: Writer, codec: Codec): seq<string> {
    if parts == [] then [] else [PathText(PathOfPart(parts[0], w, codec))] + PathsOf(parts[1..], w, codec)
  }

  function SizesOf(parts: seq<Bytes>): seq<int> {
    if parts == [] then [] else [|parts[0]|] + SizesOf(parts[1..])
  }

  /** The bundle for a file of `parts`: what its bytes decide, and no more. */
  function FileFor(parts: seq<Bytes>, w: Writer, codec: Codec): Entry {
    var data := Joined(parts);
    File(PathsOf(parts, w, codec),
         NO_METADATA.(sizeBytes := Some(|data|), algorithm := Some(HASH_ALGORITHM), hash := Some(Encode(codec.hash(data)))),
         [], Some(SizesOf(parts)))
  }

  /** `store` with every part stored in turn; `None` once one is too large. */
  function StoreParts(store: Store, parts: seq<Bytes>, w: Writer, codec: Codec): Option<Store>
    decreases |parts|
  {
    if parts == [] then Some(store)
    else
      var first := StorePart(store, parts[0], w, codec);
      if first.stored.None? then None else StoreParts(first.store, parts[1..], w, codec)
  }

  /** `data` cut into parts as long as may be, but the last. */
  function Cut(data: Bytes, step: nat): (parts: seq<Bytes>)
    requires step >= 1
    ensures forall i :: 0 <= i < |parts| ==> 0 < |parts[i]| <= step
  {
    if data == [] then [] else if |data| <= step then [data] else [data[..step]] + Cut(data[step..], step)
  }

  lemma {:induction false} CutIsWhole(data: Bytes, step: nat)
    requires step >= 1
    ensures Joined(Cut(data, step)) == data
    ensures forall i :: 0 <= i < |Cut(data, step)| - 1 ==> |Cut(data, step)[i]| == step
  {
    if |data| > step {
      CutIsWhole(data[step..], step);
    } else if data != [] {
      assert Joined([data][1..]) == [];
    }
  }

  lemma {:induction false} JoinedMore(chunks: seq<Bytes>, chunk: Bytes)
    ensures Joined(chunks + [chunk]) == Joined(chunks) + chunk
  {
    if chunks == [] {
      assert Joined([chunk][1..]) == [];
    } else {
      assert (chunks + [chunk])[1..] == chunks[1..] + [chunk];
      JoinedMore(chunks[1..], chunk);
    }
  }

  lemma {:induction false} SizesMore(parts: seq<Bytes>, part: Bytes)
    ensures SizesOf(parts + [part]) == SizesOf(parts) + [|part|]
  {
    if parts != [] {
      assert (parts + [part])[1..] == parts[1..] + [part];
      SizesMore(parts[1..], part);
    }
  }

  lemma {:induction false} PathsMore(parts: seq<Bytes>, part: Bytes, w: Writer, codec: Codec)
    ensures PathsOf(parts + [part], w, codec) == PathsOf(parts, w, codec) + [PathText(PathOfPart(part, w, codec))]
  {
    if parts != [] {
      assert (parts + [part])[1..] == parts[1..] + [part];
      PathsMore(parts[1..], part, w, codec);
    }
  }

  lemma StoresNext(store: Store, parts: seq<Bytes>, i: nat, w: Writer, codec: Codec)
    requires i < |parts|
    ensures var next := StorePart(store, parts[i], w, codec);
            StoreParts(store, parts[i..], w, codec) ==
            if next.stored.None? then None else StoreParts(next.store, parts[i + 1..], w, codec)
  {
    assert parts[i..][1..] == parts[i + 1..];
  }

  /** What has been noted of the parts stored so far. */
  predicate Made(parts: seq<Bytes>, hashed: Bytes, total: nat, paths: seq<string>, sizes: seq<int>, w: Writer, codec: Codec) {
    hashed == Joined(parts) && total == |hashed| && paths == PathsOf(parts, w, codec) && sizes == SizesOf(parts)
  }

  lemma MadeMore(parts: seq<Bytes>, part: Bytes, hashed: Bytes, total: nat, paths: seq<string>, sizes: seq<int>,
                 w: Writer, codec: Codec)
    requires Made(parts, hashed, total, paths, sizes, w, codec)
    ensures Made(parts + [part], hashed + part, total + |part|, paths + [PathText(PathOfPart(part, w, codec))],
                 sizes + [|part|], w, codec)
  {
    JoinedMore(parts, part);
    SizesMore(parts, part);
    PathsMore(parts, part, w, codec);
  }

  lemma MadeIsFile(parts: seq<Bytes>, hashed: Bytes, total: nat, paths: seq<string>, sizes: seq<int>, w: Writer, codec: Codec)
    requires Made(parts, hashed, total, paths, sizes, w, codec)
    ensures FileFor(parts, w, codec) ==
            File(paths, NO_METADATA.(sizeBytes := Some(total), algorithm := Some(HASH_ALGORITHM),
                                     hash := Some(Encode(codec.hash(hashed)))), [], Some(sizes))
  {
  }

  class PartWriter {
    const writer: Writer
    const codec: Codec
    var store: Store

    constructor (writer: Writer, codec: Codec, store: Store)
      requires IsWriter(writer)
      ensures this.writer == writer && this.codec == codec && this.store == store
    {
      this.writer, this.codec, this.store := writer, codec, store;
    }

    method Keep(part: Bytes) returns (path: Option<PartPath>)
      modifies this
      ensures Attempt(path, store) == StorePart(old(store), part, writer, codec)
      ensures path.Some? ==> path.value == PathOfPart(part, writer, codec)
    {
      if !writer.encrypted {
        var id, compressed := IdOf(part, codec), codec.compress(part);
        if id !in store {
          var kept := if |compressed| < |part| then compressed else part;
          if |kept| > writer.maxObjectBytes {
            return None;
          }
          store := store[id := kept];
        }
        return Some(Plain(id));
      }
      var key, compressed := codec.hash(part), codec.compress(part);
      var ciphertext := codec.encrypt(key, if |compressed| < |part| then compressed else part);
      var id := IdOf(ciphertext, codec);
      if id !in store {
        if |ciphertext| > writer.maxObjectBytes {
          return None;
        }
        store := store[id := ciphertext];
      }
      return Some(PartPath(id, Some(key), DEFAULT_IV));
    }

    /** The bundle for a file of `parts`, each stored in turn unless it is held. */
    method FileOf(parts: seq<Bytes>) returns (file: Option<Entry>)
      modifies this
      ensures file == match StoreParts(old(store), parts, writer, codec)
                      case None => None
                      case Some(_) => Some(FileFor(parts, writer, codec))
      ensures file.Some? ==> StoreParts(old(store), parts, writer, codec) == Some(store)
    {
      var hashed: Bytes, paths: seq<string>, sizes: seq<int> := [], [], [];
      var total: nat := 0;
      ghost var all := StoreParts(store, parts, writer, codec);
      var i := 0;
      while i < |parts|
        invariant 0 <= i <= |parts|
        invariant StoreParts(store, parts[i..], writer, codec) == all
        invariant Made(parts[..i], hashed, total, paths, sizes, writer, codec)
      {
        var part := parts[i];
        assert parts[..i + 1] == parts[..i] + [part];
        MadeMore(parts[..i], part, hashed, total, paths, sizes, writer, codec);
        StoresNext(store, parts, i, writer, codec);
        var path := Keep(part);
        if path.None? {
          return None;
        }
        hashed, paths, sizes := hashed + part, paths + [PathText(path.value)], sizes + [|part|];
        total := total + |part|;
        i := i + 1;
      }
      assert parts[..i] == parts && parts[i..] == [];
      MadeIsFile(parts, hashed, total, paths, sizes, writer, codec);
      file := Some(File(paths, NO_METADATA.(sizeBytes := Some(total), algorithm := Some(HASH_ALGORITHM),
                                            hash := Some(Encode(codec.hash(hashed)))), [], Some(sizes)));
    }
  }
}
