/** How a bundle names content: plainly by its hash, or encrypted, with its key and IV. */
module PartPaths {
  import opened Wrappers
  import opened Hex
  import opened Text

  datatype ContentId = ContentId(algorithm: string, hash: string)

  /** `key` is `None` for what is stored as it is. */
  datatype PartPath = PartPath(contentId: ContentId, key: Option<Bytes>, iv: Bytes)

  datatype NameError = Malformed | Unsupported

  const HASH_ALGORITHM := "sha256"
  const HASH_DIGITS := 64
  const KEY_BYTES := 32
  const BLOCK_BYTES := 16
  const DEFAULT_IV: Bytes := [0, 0, 0, 0, 0, 0, 0, 0, 0, 0, 0, 0, 0, 0, 0, 0]
  const CIPHER := "AES256-CBC"
  const IV_SEPARATOR := "-IV:"

  function Plain(contentId: ContentId): PartPath {
    PartPath(contentId, None, DEFAULT_IV)
  }

  /** The algorithm a node knows, and a hash of the length it gives, in lower-case digits. */
  predicate IsContentId(id: ContentId) {
    id.algorithm == HASH_ALGORITHM && |id.hash| == HASH_DIGITS && AllDigits(id.hash)
  }

  /** What building a path checks. */
  predicate IsPartPath(path: PartPath) {
    && IsContentId(path.contentId)
    && (path.key.Some? ==> |path.key.value| == KEY_BYTES)
    && |path.iv| == BLOCK_BYTES
  }

  function IdText(id: ContentId): string {
    id.algorithm + "/" + id.hash
  }

  function CipherText(iv: Bytes): string {
    if iv == DEFAULT_IV then CIPHER else CIPHER + IV_SEPARATOR + Encode(iv)
  }

  /** What names a path in a bundle. A path with no key loses its IV here. */
  function PathText(path: PartPath): string {
    match path.key
    case None => IdText(path.contentId)
    case Some(key) => Join([IdText(path.contentId), CipherText(path.iv), Encode(key)], '/')
  }

  function ParseId(algorithm: string, hash: string): (r: Result<ContentId, NameError>)
    ensures r.Success? ==> IsContentId(r.value)
  {
    var lowered := Lower(hash);
    if algorithm == "" then Failure(Malformed)
    else if Lower(algorithm) != HASH_ALGORITHM then Failure(Unsupported)
    else if |lowered| != HASH_DIGITS || !AllDigits(lowered) then Failure(Malformed)
    else Success(ContentId(HASH_ALGORITHM, lowered))
  }

  /** The IV a cipher's segment names: the default unless one follows. */
  function ParseCipher(segment: string): Result<Bytes, NameError> {
    var name := CIPHER + IV_SEPARATOR;
    if segment == CIPHER then Success(DEFAULT_IV)
    else if !(name <= segment) then Failure(Unsupported)
    else
      match Decode(segment[|name|..])
      case None => Failure(Malformed)
      case Some(iv) => if |iv| == BLOCK_BYTES then Success(iv) else Failure(Malformed)
  }

  function ParsePath(text: string): (r: Result<PartPath, NameError>)
    ensures r.Success? ==> IsPartPath(r.value)
  {
    var segments := Split(text, '/');
    if |segments| == 1 then Failure(Malformed)
    else if |segments| == 2 then
      var id :- ParseId(segments[0], segments[1]);
      Success(Plain(id))
    else if |segments| != 4 then Failure(Malformed)
    else
      var id :- ParseId(segments[0], segments[1]);
      if segments[2] != CIPHER && !(CIPHER + IV_SEPARATOR <= segments[2]) then Failure(Unsupported)
      else
        match Decode(segments[3])
        case None => Failure(Malformed)
        case Some(key) =>
          var iv :- ParseCipher(segments[2]);
          if |key| != KEY_BYTES then Failure(Malformed)
          else Success(PartPath(id, Some(key), iv))
  }

  lemma ParseIdOfValid(id: ContentId)
    requires IsContentId(id)
    ensures ParseId(id.algorithm, id.hash) == Success(id)
  {
    assert IsLower(id.hash);
    LowerOfLower(id.hash);
    LowerOfLower(HASH_ALGORITHM);
  }

  lemma NoSlash(text: string)
    requires AllDigits(text)
    ensures '/' !in text
  {
  }

  lemma SegmentsOfId(id: ContentId)
    requires IsContentId(id)
    ensures Split(IdText(id), '/') == [id.algorithm, id.hash]
  {
    NoSlash(id.hash);
    SplitOfConcat(id.algorithm, id.hash, '/');
    SplitOfPiece(id.hash, '/');
    assert IdText(id) == id.algorithm + ['/'] + id.hash;
  }

  lemma SegmentsOfEncrypted(id: ContentId, cipher: string, key: string)
    requires IsContentId(id) && '/' !in cipher && '/' !in key
    ensures Split(Join([IdText(id), cipher, key], '/'), '/') == [id.algorithm, id.hash, cipher, key]
  {
    NoSlash(id.hash);
    var last := [cipher, key];
    SplitOfJoin(last, '/');
    var text := Join(last, '/');
    assert [IdText(id), cipher, key][1..] == last;
    SplitOfConcat(id.hash, text, '/');
    SplitOfConcat(id.algorithm, id.hash + ['/'] + text, '/');
    assert IdText(id) + ['/'] + text == id.algorithm + ['/'] + (id.hash + ['/'] + text);
  }

  lemma ParseOfCipherText(iv: Bytes)
    requires |iv| == BLOCK_BYTES
    ensures '/' !in CipherText(iv)
    ensures ParseCipher(CipherText(iv)) == Success(iv)
    ensures iv != DEFAULT_IV ==> CIPHER + IV_SEPARATOR <= CipherText(iv)
  {
    if iv != DEFAULT_IV {
      DecodeOfEncode(iv);
      NoSlash(Encode(iv));
      var name := CIPHER + IV_SEPARATOR;
      assert CipherText(iv)[|name|..] == Encode(iv);
    }
  }

  /** What a path is printed as reads back as that path, its IV too once it has a key. */
  lemma ParseOfText(path: PartPath)
    requires IsPartPath(path)
    ensures ParsePath(PathText(path)) ==
            Success(if path.key.None? then Plain(path.contentId) else path)
  {
    var id := path.contentId;
    ParseIdOfValid(id);
    if path.key.None? {
      SegmentsOfId(id);
    } else {
      var key := path.key.value;
      DecodeOfEncode(key);
      NoSlash(Encode(key));
      ParseOfCipherText(path.iv);
      SegmentsOfEncrypted(id, CipherText(path.iv), Encode(key));
    }
  }

  /** Whether these name content: by the algorithm known, in any case, and a hash of so many digits, lower-cased. */
  predicate NamesContent(algorithm: string, hash: string, id: ContentId) {
    && Lower(algorithm) == "sha256" && |Lower(hash)| == 64 && AllDigits(Lower(hash))
    && id == ContentId("sha256", Lower(hash))
  }

  /** Whether a cipher's segment names this IV: the default, or the one that follows in hexadecimal. */
  predicate NamesIv(segment: string, iv: Bytes) {
    || (segment == "AES256-CBC" && iv == DEFAULT_IV)
    || ("AES256-CBC-IV:" <= segment && Decode(segment[14..]) == Some(iv) && |iv| == 16)
  }

  /** A path is read if and only if it is two segments that name content, or four that name its cipher and key too. */
  lemma PathExactly(text: string, path: PartPath)
    ensures var segments := Split(text, '/');
            ParsePath(text) == Success(path) <==>
            || (|segments| == 2 && NamesContent(segments[0], segments[1], path.contentId) &&
                path.key == None && path.iv == DEFAULT_IV)
            || (|segments| == 4 && NamesContent(segments[0], segments[1], path.contentId) && NamesIv(segments[2], path.iv) &&
                path.key.Some? && Decode(segments[3]) == path.key && |path.key.value| == 32)
  {
    assert CIPHER + IV_SEPARATOR == "AES256-CBC-IV:";
  }
}
