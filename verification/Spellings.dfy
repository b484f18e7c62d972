/** One extension named twice, spelled two ways: a bundle that is read, and refused once it is expanded. */
module Spellings {
  import opened Wrappers
  import opened Text
  import opened Hex
  import opened PartPaths
  import opened Shapes
  import opened Overlay
  import opened Bundles
  import opened Histories

  /** A path with the IV that goes without saying said all the same. */
  function TextWithIv(path: PartPath): string
    requires path.key.Some?
  {
    Join([IdText(path.contentId), CIPHER + IV_SEPARATOR + Encode(DEFAULT_IV), Encode(path.key.value)], '/')
  }

  predicate IsUnsaid(path: PartPath) {
    IsPartPath(path) && path.key.Some? && path.iv == DEFAULT_IV
  }

  lemma SegmentsOfBoth(path: PartPath)
    requires IsUnsaid(path)
    ensures var id, key := path.contentId, Encode(path.key.value);
            && Split(PathText(path), '/') == [id.algorithm, id.hash, CIPHER, key]
            && Split(TextWithIv(path), '/') ==
               [id.algorithm, id.hash, CIPHER + IV_SEPARATOR + Encode(DEFAULT_IV), key]
  {
    NoSlash(Encode(path.key.value));
    NoSlash(Encode(DEFAULT_IV));
    SegmentsOfEncrypted(path.contentId, CIPHER, Encode(path.key.value));
    SegmentsOfEncrypted(path.contentId, CIPHER + IV_SEPARATOR + Encode(DEFAULT_IV), Encode(path.key.value));
  }

  /** Every path with a key and the default IV has two texts that are read alike. */
  lemma TwoTextsOfOne(path: PartPath)
    requires IsUnsaid(path)
    ensures PathText(path) != TextWithIv(path)
    ensures ParsePath(PathText(path)) == Success(path) && ParsePath(TextWithIv(path)) == Success(path)
  {
    SegmentsOfBoth(path);
    ParseOfText(path);
    DecodeOfEncode(DEFAULT_IV);
    var name, cipher := CIPHER + IV_SEPARATOR, CIPHER + IV_SEPARATOR + Encode(DEFAULT_IV);
    assert cipher[|name|..] == Encode(DEFAULT_IV);
    ParseOfFour(TextWithIv(path), path, cipher);
  }

  lemma ParseOfFour(text: string, path: PartPath, cipher: string)
    requires IsUnsaid(path) && ParseCipher(cipher) == Success(path.iv) && CIPHER + IV_SEPARATOR <= cipher
    requires Split(text, '/') == [path.contentId.algorithm, path.contentId.hash, cipher, Encode(path.key.value)]
    ensures ParsePath(text) == Success(path)
  {
    DecodeOfEncode(path.key.value);
    ParseIdOfValid(path.contentId);
  }

  /** A bundle that supersedes the one at `path`, and names it twice. */
  function NamingTwice(path: PartPath): Directory
    requires path.key.Some?
  {
    Directory(map[], NO_METADATA, [PathText(path)], [PathText(path), TextWithIv(path)])
  }

  function ParseName(name: string): Result<PartPath, BundleError> {
    match ParsePath(name)
    case Success(path) => Success(path)
    case Failure(error) => Failure(if error.Malformed? then MalformedBundle else UnsupportedBundle)
  }

  /** A reader of the empty bundle at `path` alone. */
  function ReaderOfOne(path: PartPath): Reader {
    Reader(ParseName,
           (p: PartPath) => if p == path then Held(Dir(EMPTY)) else Absent([p.contentId]))
  }

  /** Expanded, it lists two layers where one extension is read. */
  lemma NamedTwiceContradicts(path: PartPath, p: PartPath)
    requires IsUnsaid(path)
    ensures Expand(ReaderOfOne(path), p, NamingTwice(path)).Contradictory?
  {
    TwoTextsOfOne(path);
    OneIsRead(ReaderOfOne(path), PathText(path), TextWithIv(path), path, MAX_EXTENSIONS);
    assert Beneath(NamingTwice(path)) == NamingTwice(path).extensions;
  }

  const EMPTY := Directory(map[], NO_METADATA, [], [])

  /** A reader of a bundle with no extensions, named twice, reads it once. */
  lemma OneIsRead(r: Reader, a: string, b: string, path: PartPath, max: nat)
    requires r.parse(a) == r.parse(b) == Success(path) && r.load(path) == Held(Dir(EMPTY)) && max >= 1
    ensures Resolved(r, Directory(map[], NO_METADATA, [a], [a, b]), max) == Outcome(Overlaid(map[]), [path])
  {
    var first := Trail(map[], {}, [], [a, b], []);
    var second := Trail(map[], {path}, [], [b], [path]);
    var third := Trail(map[], {path}, [], [], [path]);
    assert first.todo[1..] == [b] && second.todo[1..] == [] && |{path}| == 1;
    assert EMPTY.extensions + [b] == [b] && EMPTY.entries + first.resolved == map[];
    assert AfterDirectory(first, path, EMPTY) == second;
    assert Advance(r, max, first) == Going(second);
    assert Advance(r, max, second) == Going(third);
    assert Walk(r, max, third) == Finished(third);
    assert Walk(r, max, first) == Walk(r, max, second) == Walk(r, max, third);
    assert Start(Directory(map[], NO_METADATA, [a], [a, b])) == first;
    assert Present(map[]) == map[];
  }

  /** Both spellings are kept as they are written: only the hash and its algorithm are lower-cased. */
  lemma BothAreKept(path: PartPath, lexis: Lexis)
    requires IsUnsaid(path) && lexis.lower == Lower
    ensures Normal(PathText(path), lexis) == PathText(path)
    ensures Normal(TextWithIv(path), lexis) == TextWithIv(path)
  {
    CipherIsKept(path.contentId, CIPHER, Encode(path.key.value), lexis);
    CipherIsKept(path.contentId, CIPHER + IV_SEPARATOR + Encode(DEFAULT_IV), Encode(path.key.value), lexis);
  }

  lemma CipherIsKept(id: ContentId, cipher: string, key: string, lexis: Lexis)
    requires IsContentId(id) && lexis.lower == Lower
    ensures Normal(Join([IdText(id), cipher, key], '/'), lexis) == Join([IdText(id), cipher, key], '/')
  {
    NoSlash(id.hash);
    LowerOfLower(id.hash);
    LowerOfLower(id.algorithm);
    var rest := cipher + "/" + key;
    var texts := [IdText(id), cipher, key];
    assert texts[1..] == [cipher, key] && texts[1..][1..] == [key];
    assert Join([key], '/') == key;
    assert Join(texts[1..], '/') == cipher + ['/'] + Join(texts[1..][1..], '/');
    assert Join(texts, '/') == IdText(id) + ['/'] + Join(texts[1..], '/');
    assert Join(texts, '/') == id.algorithm + "/" + (id.hash + "/" + rest);
    LowerAfter(id.algorithm, id.hash + "/" + rest, 2, lexis);
    LowerAfter(id.hash, rest, 1, lexis);
  }

  /** So the bundle written is read back as it is, both spellings in it. */
  lemma NamedTwiceIsRead(path: PartPath, lexis: Lexis)
    requires IsUnsaid(path) && lexis.lower == Lower
    ensures ParseBundle(BundleValue(Dir(NamingTwice(path))), lexis) == Accepted(Dir(NamingTwice(path)))
  {
    BothAreKept(path, lexis);
    WrittenIsRead(Dir(NamingTwice(path)), lexis);
  }

  /** There is such a path. */
  lemma SomePathIsUnsaid()
    ensures IsUnsaid(PartPath(ContentId(HASH_ALGORITHM, seq(HASH_DIGITS, _ => '0')), Some(seq(KEY_BYTES, _ => 0)), DEFAULT_IV))
  {
  }
}
