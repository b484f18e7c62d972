/** Bundles as JSON: told apart by shape alone, and written back as they were read. */
module Bundles {
  import opened Wrappers
  import opened Text
  import opened PartPaths
  import opened Shapes

  /** A decoded JSON value. `Real` is any number that is not written as an integer. */
  datatype Json =
    | Null
    | Bool(flag: bool)
    | Integer(value: int)
    | Real(number: real)
    | Str(text: string)
    | Arr(items: seq<Json>)
    | Obj(fields: map<string, Json>)

  /** How text is lower-cased, and what text is base64, a media type, or came from UTF-8. */
  datatype Lexis = Lexis(
    lower: string -> string,
    isBase64: string -> bool,
    isMediaType: string -> bool,
    isUtf8: string -> bool)

  /** Lower-casing twice is lower-casing once, and makes no separator. */
  ghost predicate Lowers(lexis: Lexis) {
    && (forall text :: lexis.lower(lexis.lower(text)) == lexis.lower(text))
    && (forall text :: '/' !in text ==> '/' !in lexis.lower(text))
  }

  /** ASCII text is so lower-cased. */
  lemma AsciiLowers(isBase64: string -> bool, isMediaType: string -> bool, isUtf8: string -> bool)
    ensures Lowers(Lexis(Lower, isBase64, isMediaType, isUtf8))
  {
    forall text
      ensures Lower(Lower(text)) == Lower(text)
      ensures '/' !in text ==> '/' !in Lower(text)
    {
      LowerIsLower(text);
      LowerOfLower(Lower(text));
    }
  }

  /** A value is refused for the first of its faults met, which may be any of `errors`. */
  datatype Parsed<+T> = Accepted(value: T) | Rejected(errors: set<BundleError>)

  const MALFORMED: set<BundleError> := {MalformedBundle}

  // ---- CAS paths ----------------------------------------------------------

  function SlashIn(path: string): (i: nat)
    ensures i <= |path| && (i < |path| ==> path[i] == '/')
    ensures '/' !in path[..i]
  {
    if path == [] || path[0] == '/' then 0
    else
      var i := 1 + SlashIn(path[1..]);
      assert path[..i] == [path[0]] + path[1..][..i - 1];
      i
  }

  /** `path` with its first `segments` segments lower-cased. */
  function LowerSegments(path: string, segments: nat, lexis: Lexis): string
    decreases segments
  {
    var i := SlashIn(path);
    if segments == 0 then path
    else if i == |path| then lexis.lower(path)
    else lexis.lower(path[..i]) + "/" + LowerSegments(path[i + 1..], segments - 1, lexis)
  }

  /** Its hash algorithm and hash lower-cased; what encryption adds is kept as written. */
  function Normal(path: string, lexis: Lexis): string {
    LowerSegments(path, 2, lexis)
  }

  lemma {:induction false} SlashAfter(segment: string, rest: string)
    requires '/' !in segment
    ensures SlashIn(segment + "/" + rest) == |segment|
    ensures SlashIn(segment) == |segment|
  {
    if segment != [] {
      SlashAfter(segment[1..], rest);
      assert (segment + "/" + rest)[1..] == segment[1..] + "/" + rest;
    }
  }

  lemma {:induction false} LowerSegmentsTwice(path: string, segments: nat, lexis: Lexis)
    requires Lowers(lexis)
    ensures LowerSegments(LowerSegments(path, segments, lexis), segments, lexis) == LowerSegments(path, segments, lexis)
    decreases segments
  {
    if segments > 0 {
      var i := SlashIn(path);
      if i == |path| {
        assert path[..i] == path;
        SlashAfter(lexis.lower(path), "");
      } else {
        LowerSegmentsTwice(path[i + 1..], segments - 1, lexis);
        LowerAfterLower(path[..i], LowerSegments(path[i + 1..], segments - 1, lexis), segments, lexis);
      }
    }
  }

  /** Lower-casing a segment and what follows it lower-cases both. */
  lemma LowerAfter(segment: string, rest: string, segments: nat, lexis: Lexis)
    requires segments > 0 && '/' !in segment
    ensures LowerSegments(segment + "/" + rest, segments, lexis) ==
            lexis.lower(segment) + "/" + LowerSegments(rest, segments - 1, lexis)
  {
    var whole := segment + "/" + rest;
    SlashAfter(segment, rest);
    assert whole[..|segment|] == segment && whole[|segment| + 1..] == rest;
  }

  lemma LowerAfterLower(segment: string, rest: string, segments: nat, lexis: Lexis)
    requires Lowers(lexis) && segments > 0 && '/' !in segment
    requires LowerSegments(rest, segments - 1, lexis) == rest
    ensures LowerSegments(lexis.lower(segment) + "/" + rest, segments, lexis) == lexis.lower(segment) + "/" + rest
  {
    LowerAfter(lexis.lower(segment), rest, segments, lexis);
  }

  lemma NormalIsNormal(path: string, lexis: Lexis)
    requires Lowers(lexis)
    ensures Normal(Normal(path, lexis), lexis) == Normal(path, lexis)
  {
    LowerSegmentsTwice(path, 2, lexis);
  }

  predicate AreNormal(paths: seq<string>, lexis: Lexis) {
    forall i :: 0 <= i < |paths| ==> Normal(paths[i], lexis) == paths[i]
  }

  // ---- What shapes allow --------------------------------------------------

  predicate IsEntryPath(path: string) {
    '\0' !in path && forall segment :: segment in Split(path, '/') ==> segment != "" && segment != "." && segment != ".."
  }

  predicate IsXattr(name: string, xattr: Xattr, lexis: Lexis) {
    name != "" && '\0' !in name && lexis.isUtf8(name) && (xattr.Inline? ==> lexis.isBase64(xattr.base64))
  }

  predicate IsMetadata(m: Metadata, lexis: Lexis) {
    && (m.sizeBytes.Some? ==> m.sizeBytes.value >= 0)
    && (m.algorithm.None? <==> m.hash.None?)
    && (forall name :: name in m.xattrs ==> IsXattr(name, m.xattrs[name], lexis))
    && (m.contentType.Some? ==> lexis.isMediaType(m.contentType.value))
  }

  function Total(sizes: seq<int>): int {
    if sizes == [] then 0 else sizes[0] + Total(sizes[1..])
  }

  predicate AreSizes(sizes: seq<int>, parts: seq<string>, sizeBytes: Option<int>) {
    && |sizes| == |parts| && (forall i :: 0 <= i < |sizes| ==> sizes[i] >= 0)
    && (sizeBytes.Some? ==> Total(sizes) == sizeBytes.value)
  }

  predicate IsTarget(target: string) {
    target != "" && target[0] != '/' && '\0' !in target
  }

  predicate IsEntry(entry: Entry, lexis: Lexis) {
    match entry
    case File(parts, metadata, _, partSizes) =>
      IsMetadata(metadata, lexis) && (partSizes.Some? ==> AreSizes(partSizes.value, parts, metadata.sizeBytes))
    case Symlink(target) => IsTarget(target)
    case Marker(metadata) => IsMetadata(metadata, lexis)
  }

  predicate IsDirectory(d: Directory, lexis: Lexis) {
    && IsMetadata(d.metadata, lexis)
    && (forall path :: path in d.entries ==> IsEntryPath(path))
    && (forall path :: path in d.entries && d.entries[path].Some? ==> IsEntry(d.entries[path].value, lexis))
  }

  /** A bundle as it may be built. */
  predicate IsBundle(bundle: Bundle, lexis: Lexis) {
    match bundle
    case Single(entry) => IsEntry(entry, lexis)
    case Dir(directory) => IsDirectory(directory, lexis)
  }

  predicate LowerMetadata(m: Metadata, lexis: Lexis) {
    && (m.algorithm.Some? ==> lexis.lower(m.algorithm.value) == m.algorithm.value)
    && (m.hash.Some? ==> lexis.lower(m.hash.value) == m.hash.value)
    && (forall name :: name in m.xattrs && m.xattrs[name].InParts? ==> AreNormal(m.xattrs[name].parts, lexis))
  }

  predicate LowerEntry(entry: Entry, lexis: Lexis) {
    match entry
    case File(parts, metadata, versions, _) =>
      AreNormal(parts, lexis) && LowerMetadata(metadata, lexis) &&
      forall i :: 0 <= i < |versions| ==> AreNormal(versions[i], lexis)
    case Symlink(_) => true
    case Marker(metadata) => LowerMetadata(metadata, lexis)
  }

  /** Its CAS paths and hashes are lower-case. */
  predicate LowerBundle(bundle: Bundle, lexis: Lexis) {
    match bundle
    case Single(entry) => LowerEntry(entry, lexis)
    case Dir(d) =>
      && LowerMetadata(d.metadata, lexis) && AreNormal(d.versions, lexis) && AreNormal(d.extensions, lexis)
      && forall path :: path in d.entries && d.entries[path].Some? ==> LowerEntry(d.entries[path].value, lexis)
  }

  // ---- Reading ------------------------------------------------------------

  predicate AllStrings(items: seq<Json>) {
    forall i :: 0 <= i < |items| ==> items[i].Str?
  }

  predicate AllIntegers(items: seq<Json>) {
    forall i :: 0 <= i < |items| ==> items[i].Integer?
  }

  function ParsePaths(value: Json, lexis: Lexis): Parsed<seq<string>> {
    if !value.Arr? || !AllStrings(value.items) then Rejected(MALFORMED)
    else
      var items := value.items;
      Accepted(seq(|items|, i requires 0 <= i < |items| && items[i].Str? => Normal(items[i].text, lexis)))
  }

  /** What `fields` holds at `key`, or an empty array. */
  function FieldOr(fields: map<string, Json>, key: string, default_: Json): Json {
    if key in fields then fields[key] else default_
  }

  function ParseString(fields: map<string, Json>, key: string): Parsed<Option<string>> {
    if key !in fields then Accepted(None)
    else if fields[key].Str? then Accepted(Some(fields[key].text))
    else Rejected(MALFORMED)
  }

  function ParseLower(fields: map<string, Json>, key: string, lexis: Lexis): Parsed<Option<string>> {
    match ParseString(fields, key)
    case Rejected(errors) => Rejected(errors)
    case Accepted(None) => Accepted(None)
    case Accepted(Some(text)) => Accepted(Some(lexis.lower(text)))
  }

  function ParseSize(fields: map<string, Json>): Parsed<Option<int>> {
    if "size" !in fields then Accepted(None)
    else if fields["size"].Integer? && fields["size"].value >= 0 then Accepted(Some(fields["size"].value))
    else Rejected(MALFORMED)
  }

  function ParseFlag(fields: map<string, Json>, key: string): Parsed<bool> {
    var value := FieldOr(fields, key, Bool(false));
    if value.Bool? then Accepted(value.flag) else Rejected(MALFORMED)
  }

  function ParseXattr(value: Json, lexis: Lexis): Parsed<Xattr> {
    if value.Str? then Accepted(Inline(value.text))
    else
      match ParsePaths(value, lexis)
      case Rejected(errors) => Rejected(errors)
      case Accepted(parts) => Accepted(InParts(parts))
  }

  function ParseXattrs(fields: map<string, Json>, lexis: Lexis): Parsed<map<string, Xattr>> {
    var value := FieldOr(fields, "xattrs", Obj(map[]));
    if !value.Obj? || exists name :: name in value.fields && ParseXattr(value.fields[name], lexis).Rejected?
    then Rejected(MALFORMED)
    else
      Accepted(map name | name in value.fields && ParseXattr(value.fields[name], lexis).Accepted? ::
                 ParseXattr(value.fields[name], lexis).value)
  }

  function ParseMetadata(bundle: map<string, Json>, lexis: Lexis): Parsed<Metadata> {
    var value := FieldOr(bundle, "metadata", Obj(map[]));
    if !value.Obj? then Rejected(MALFORMED) else MetadataOf(value.fields, lexis)
  }

  function MetadataOf(fields: map<string, Json>, lexis: Lexis): Parsed<Metadata> {
    var created, modified := ParseString(fields, "created"), ParseString(fields, "modified");
    var size, contentType := ParseSize(fields), ParseString(fields, "content_type");
    var writable, executable := ParseFlag(fields, "writable"), ParseFlag(fields, "executable");
    var algorithm, hash := ParseLower(fields, "algorithm", lexis), ParseLower(fields, "hash", lexis);
    var xattrs := ParseXattrs(fields, lexis);
    if created.Rejected? || modified.Rejected? || size.Rejected? || writable.Rejected? || executable.Rejected? ||
       algorithm.Rejected? || hash.Rejected? || xattrs.Rejected? || contentType.Rejected?
    then Rejected(MALFORMED)
    else
      var m := Metadata(created.value, modified.value, size.value, writable.value, executable.value,
                        algorithm.value, hash.value, xattrs.value, contentType.value);
      if IsMetadata(m, lexis) then Accepted(m) else Rejected(MALFORMED)
  }

  function ParseSizes(fields: map<string, Json>): Parsed<Option<seq<int>>> {
    if "sizes" !in fields then Accepted(None)
    else if !fields["sizes"].Arr? || !AllIntegers(fields["sizes"].items) then Rejected(MALFORMED)
    else
      var items := fields["sizes"].items;
      Accepted(Some(seq(|items|, i requires 0 <= i < |items| && items[i].Integer? => items[i].value)))
  }

  predicate AllPaths(items: seq<Json>, lexis: Lexis) {
    forall i :: 0 <= i < |items| ==> ParsePaths(items[i], lexis).Accepted?
  }

  function ParseVersions(fields: map<string, Json>, lexis: Lexis): Parsed<seq<seq<string>>> {
    var value := FieldOr(fields, "versions", Arr([]));
    if !value.Arr? || !AllPaths(value.items, lexis) then Rejected(MALFORMED)
    else
      var items := value.items;
      Accepted(seq(|items|, i requires 0 <= i < |items| && ParsePaths(items[i], lexis).Accepted? =>
                              ParsePaths(items[i], lexis).value))
  }

  function ParseFile(fields: map<string, Json>, contents: Json, lexis: Lexis): Parsed<Entry> {
    var parts, metadata := ParsePaths(contents, lexis), ParseMetadata(fields, lexis);
    var versions, sizes := ParseVersions(fields, lexis), ParseSizes(fields);
    if parts.Rejected? || metadata.Rejected? || versions.Rejected? || sizes.Rejected? then Rejected(MALFORMED)
    else
      var file := File(parts.value, metadata.value, versions.value, sizes.value);
      if IsEntry(file, lexis) then Accepted(file) else Rejected(MALFORMED)
  }

  /** The file, symlink or marker `fields` describe, told apart by their contents. */
  function ParseEntry(fields: map<string, Json>, lexis: Lexis): Parsed<Entry> {
    if "contents" !in fields then
      match ParseMetadata(fields, lexis)
      case Rejected(errors) => Rejected(errors)
      case Accepted(metadata) => Accepted(Marker(metadata))
    else
      match fields["contents"]
      case Arr(_) => ParseFile(fields, fields["contents"], lexis)
      case Str(target) => if IsTarget(target) then Accepted(Symlink(target)) else Rejected(MALFORMED)
      case _ => Rejected(MALFORMED)
  }

  /** What a directory's contents hold: a tombstone, or an entry that is no directory and is not signed. */
  function ParseHeld(value: Json, lexis: Lexis): Parsed<Option<Entry>> {
    if value.Null? then Accepted(None)
    else if !value.Obj? then Rejected(MALFORMED)
    else if "signature" in value.fields then Rejected({UnsupportedBundle})
    else
      match ParseEntry(value.fields, lexis)
      case Rejected(errors) => Rejected(errors)
      case Accepted(entry) => Accepted(Some(entry))
  }

  predicate AllHeld(contents: map<string, Json>, lexis: Lexis) {
    forall path :: path in contents ==> ParseHeld(contents[path], lexis).Accepted?
  }

  /** What its contents are refused for; which comes first depends on the order they are in. */
  function HeldErrors(contents: map<string, Json>, lexis: Lexis): set<BundleError> {
    set path, error | path in contents && ParseHeld(contents[path], lexis).Rejected? &&
                      error in ParseHeld(contents[path], lexis).errors :: error
  }

  function Layered(contents: map<string, Json>, lexis: Lexis): Layer
    requires AllHeld(contents, lexis)
  {
    map path | path in contents :: ParseHeld(contents[path], lexis).value
  }

  function ParseDirectory(fields: map<string, Json>, contents: map<string, Json>, lexis: Lexis): Parsed<Bundle> {
    if !AllHeld(contents, lexis) then Rejected(HeldErrors(contents, lexis))
    else
      var metadata := ParseMetadata(fields, lexis);
      var versions := ParsePaths(FieldOr(fields, "versions", Arr([])), lexis);
      var extensions := ParsePaths(FieldOr(fields, "extensions", Arr([])), lexis);
      if metadata.Rejected? || versions.Rejected? || extensions.Rejected? then Rejected(MALFORMED)
      else
        var d := Directory(Layered(contents, lexis), metadata.value, versions.value, extensions.value);
        if IsDirectory(d, lexis) then Accepted(Dir(d)) else Rejected(MALFORMED)
  }

  /** The bundle a JSON value is, told apart by its shape. */
  function ParseBundle(value: Json, lexis: Lexis): Parsed<Bundle> {
    if !value.Obj? then Rejected(MALFORMED)
    else if "signature" in value.fields then Rejected({UnsupportedBundle})
    else if "contents" in value.fields && value.fields["contents"].Obj? then
      ParseDirectory(value.fields, value.fields["contents"].fields, lexis)
    else
      match ParseEntry(value.fields, lexis)
      case Rejected(errors) => Rejected(errors)
      case Accepted(entry) => Accepted(Single(entry))
  }

  // ---- Writing ------------------------------------------------------------

  function Strings(texts: seq<string>): Json {
    Arr(seq(|texts|, i requires 0 <= i < |texts| => Str(texts[i])))
  }

  function Integers(values: seq<int>): Json {
    Arr(seq(|values|, i requires 0 <= i < |values| => Integer(values[i])))
  }

  function StringLists(lists: seq<seq<string>>): Json {
    Arr(seq(|lists|, i requires 0 <= i < |lists| => Strings(lists[i])))
  }

  /** A field of an object, left out where it is `None`. */
  datatype Field = Field(key: string, value: Option<Json>)

  function Built(fields: seq<Field>): map<string, Json> {
    if fields == [] then map[]
    else
      var rest := Built(fields[1..]);
      if fields[0].value.Some? then rest[fields[0].key := fields[0].value.value] else rest
  }

  function OptionalText(text: Option<string>): Option<Json> {
    match text case None => None case Some(text) => Some(Str(text))
  }

  function OptionalFlag(flag: bool): Option<Json> {
    if flag then Some(Bool(true)) else None
  }

  function XattrValue(xattr: Xattr): Json {
    match xattr case Inline(text) => Str(text) case InParts(parts) => Strings(parts)
  }

  function OptionalXattrs(xattrs: map<string, Xattr>): Option<Json> {
    if xattrs == map[] then None else Some(Obj(map name | name in xattrs :: XattrValue(xattrs[name])))
  }

  /** The metadata object's fields, those that hold only a default left out. */
  function MetadataFields(m: Metadata): (fields: seq<Field>)
    ensures |fields| == 9
  {
    [Field("created", OptionalText(m.created)),
     Field("modified", OptionalText(m.modified)),
     Field("size", if m.sizeBytes.Some? then Some(Integer(m.sizeBytes.value)) else None),
     Field("algorithm", OptionalText(m.algorithm)),
     Field("hash", OptionalText(m.hash)),
     Field("content_type", OptionalText(m.contentType)),
     Field("writable", OptionalFlag(m.writable)),
     Field("executable", OptionalFlag(m.executable)),
     Field("xattrs", OptionalXattrs(m.xattrs))]
  }

  function MetadataValue(m: Metadata): map<string, Json> {
    Built(MetadataFields(m))
  }

  function OptionalMetadata(m: Metadata): Option<Json> {
    if MetadataValue(m) == map[] then None else Some(Obj(MetadataValue(m)))
  }

  function EntryFields(entry: Entry): seq<Field> {
    match entry
    case Symlink(target) => [Field("contents", Some(Str(target)))]
    case Marker(metadata) => [Field("metadata", OptionalMetadata(metadata))]
    case File(parts, metadata, versions, partSizes) =>
      [Field("metadata", OptionalMetadata(metadata)),
       Field("contents", Some(Strings(parts))),
       Field("sizes", if partSizes.Some? then Some(Integers(partSizes.value)) else None),
       Field("versions", if versions == [] then None else Some(StringLists(versions)))]
  }

  function EntryValue(entry: Entry): map<string, Json> {
    Built(EntryFields(entry))
  }

  function HeldValue(held: Option<Entry>): Json {
    match held case None => Null case Some(entry) => Obj(EntryValue(entry))
  }

  function OptionalPaths(paths: seq<string>): Option<Json> {
    if paths == [] then None else Some(Strings(paths))
  }

  function ContentsValue(entries: Layer): map<string, Json> {
    map path | path in entries :: HeldValue(entries[path])
  }

  function DirectoryFields(d: Directory): seq<Field> {
    [Field("metadata", OptionalMetadata(d.metadata)),
     Field("contents", Some(Obj(ContentsValue(d.entries)))),
     Field("versions", OptionalPaths(d.versions)),
     Field("extensions", OptionalPaths(d.extensions))]
  }

  /** The JSON object describing a bundle. */
  function BundleValue(bundle: Bundle): Json {
    match bundle
    case Single(entry) => Obj(EntryValue(entry))
    case Dir(d) => Obj(Built(DirectoryFields(d)))
  }

  // ---- Fields as built ----------------------------------------------------

  predicate Distinct(fields: seq<Field>) {
    forall i, j :: 0 <= i < j < |fields| ==> fields[i].key != fields[j].key
  }

  function Look(fields: map<string, Json>, key: string): Option<Json> {
    if key in fields then Some(fields[key]) else None
  }

  lemma {:induction false} BuiltHolds(fields: seq<Field>, i: nat)
    requires Distinct(fields) && i < |fields|
    ensures Look(Built(fields), fields[i].key) == fields[i].value
  {
    if i == 0 {
      BuiltHoldsNoOther(fields[1..], fields[0].key);
    } else {
      assert fields[1..][i - 1] == fields[i];
      BuiltHolds(fields[1..], i - 1);
    }
  }

  lemma {:induction false} BuiltHoldsNoOther(fields: seq<Field>, key: string)
    requires forall i :: 0 <= i < |fields| ==> fields[i].key != key
    ensures key !in Built(fields)
  {
    if fields != [] {
      BuiltHoldsNoOther(fields[1..], key);
    }
  }

  // ---- What is written is read back ---------------------------------------

  lemma PathsReadBack(paths: seq<string>, lexis: Lexis)
    requires AreNormal(paths, lexis)
    ensures ParsePaths(Strings(paths), lexis) == Accepted(paths)
  {
    assert ParsePaths(Strings(paths), lexis).value == paths;
  }

  lemma MetadataKeysDiffer(m: Metadata)
    ensures Distinct(MetadataFields(m))
  {
    assert |"created"| == 7 && |"modified"| == 8 && |"size"| == 4 && |"algorithm"| == 9 && |"hash"| == 4;
    assert |"content_type"| == 12 && |"writable"| == 8 && |"executable"| == 10 && |"xattrs"| == 6;
    assert "size"[0] != "hash"[0] && "modified"[0] != "writable"[0];
  }

  /** What a metadata object holds, key by key. */
  lemma MetadataHolds(m: Metadata)
    ensures var v := MetadataValue(m);
            && Look(v, "created") == OptionalText(m.created) && Look(v, "modified") == OptionalText(m.modified)
            && Look(v, "size") == (if m.sizeBytes.Some? then Some(Integer(m.sizeBytes.value)) else None)
            && Look(v, "algorithm") == OptionalText(m.algorithm) && Look(v, "hash") == OptionalText(m.hash)
            && Look(v, "content_type") == OptionalText(m.contentType)
            && Look(v, "writable") == OptionalFlag(m.writable) && Look(v, "executable") == OptionalFlag(m.executable)
            && Look(v, "xattrs") == OptionalXattrs(m.xattrs)
  {
    MetadataKeysDiffer(m);
    var fields := MetadataFields(m);
    BuiltHolds(fields, 0);
    BuiltHolds(fields, 1);
    BuiltHolds(fields, 2);
    BuiltHolds(fields, 3);
    BuiltHolds(fields, 4);
    BuiltHolds(fields, 5);
    BuiltHolds(fields, 6);
    BuiltHolds(fields, 7);
    BuiltHolds(fields, 8);
  }

  lemma XattrsReadBack(fields: map<string, Json>, m: Metadata, lexis: Lexis)
    requires LowerMetadata(m, lexis) && Look(fields, "xattrs") == OptionalXattrs(m.xattrs)
    ensures ParseXattrs(fields, lexis) == Accepted(m.xattrs)
  {
    var value := FieldOr(fields, "xattrs", Obj(map[]));
    assert value.Obj? && value.fields.Keys == m.xattrs.Keys;
    forall name | name in m.xattrs
      ensures ParseXattr(value.fields[name], lexis) == Accepted(m.xattrs[name])
    {
      if m.xattrs[name].InParts? {
        PathsReadBack(m.xattrs[name].parts, lexis);
      }
    }
    assert ParseXattrs(fields, lexis).value == m.xattrs;
  }

  lemma MetadataReadsBack(fields: map<string, Json>, m: Metadata, lexis: Lexis)
    requires IsMetadata(m, lexis) && LowerMetadata(m, lexis) && fields == MetadataValue(m)
    ensures MetadataOf(fields, lexis) == Accepted(m)
  {
    MetadataHolds(m);
    XattrsReadBack(fields, m, lexis);
    TextsReadBack(fields, m, lexis);
  }

  lemma TextsReadBack(fields: map<string, Json>, m: Metadata, lexis: Lexis)
    requires LowerMetadata(m, lexis)
    requires Look(fields, "created") == OptionalText(m.created) && Look(fields, "modified") == OptionalText(m.modified)
    requires Look(fields, "size") == if m.sizeBytes.Some? then Some(Integer(m.sizeBytes.value)) else None
    requires Look(fields, "algorithm") == OptionalText(m.algorithm) && Look(fields, "hash") == OptionalText(m.hash)
    requires Look(fields, "content_type") == OptionalText(m.contentType)
    requires Look(fields, "writable") == OptionalFlag(m.writable) && Look(fields, "executable") == OptionalFlag(m.executable)
    requires IsMetadata(m, lexis)
    ensures ParseString(fields, "created") == Accepted(m.created) && ParseString(fields, "modified") == Accepted(m.modified)
    ensures ParseSize(fields) == Accepted(m.sizeBytes) && ParseString(fields, "content_type") == Accepted(m.contentType)
    ensures ParseLower(fields, "algorithm", lexis) == Accepted(m.algorithm)
    ensures ParseLower(fields, "hash", lexis) == Accepted(m.hash)
    ensures ParseFlag(fields, "writable") == Accepted(m.writable)
    ensures ParseFlag(fields, "executable") == Accepted(m.executable)
  {
  }

  /** Wherever fields hold metadata, or leave out what is all default, it is read back. */
  lemma MetadataFieldReadsBack(fields: map<string, Json>, m: Metadata, lexis: Lexis)
    requires IsMetadata(m, lexis) && LowerMetadata(m, lexis)
    requires Look(fields, "metadata") == OptionalMetadata(m)
    ensures ParseMetadata(fields, lexis) == Accepted(m)
  {
    MetadataReadsBack(MetadataValue(m), m, lexis);
  }

  lemma VersionsReadBack(fields: map<string, Json>, versions: seq<seq<string>>, lexis: Lexis)
    requires forall i :: 0 <= i < |versions| ==> AreNormal(versions[i], lexis)
    requires Look(fields, "versions") == if versions == [] then None else Some(StringLists(versions))
    ensures ParseVersions(fields, lexis) == Accepted(versions)
  {
    var items := FieldOr(fields, "versions", Arr([])).items;
    assert |items| == |versions|;
    forall i | 0 <= i < |versions|
      ensures ParsePaths(items[i], lexis) == Accepted(versions[i])
    {
      PathsReadBack(versions[i], lexis);
    }
    assert ParseVersions(fields, lexis).value == versions;
  }

  lemma SizesReadBack(fields: map<string, Json>, partSizes: Option<seq<int>>)
    requires Look(fields, "sizes") == if partSizes.Some? then Some(Integers(partSizes.value)) else None
    ensures ParseSizes(fields) == Accepted(partSizes)
  {
    if partSizes.Some? {
      assert ParseSizes(fields).value.value == partSizes.value;
    }
  }

  lemma PathsFieldReadsBack(fields: map<string, Json>, key: string, paths: seq<string>, lexis: Lexis)
    requires AreNormal(paths, lexis) && Look(fields, key) == OptionalPaths(paths)
    ensures ParsePaths(FieldOr(fields, key, Arr([])), lexis) == Accepted(paths)
  {
    PathsReadBack(paths, lexis);
    assert Strings([]) == Arr([]);
  }

  lemma BundleKeysDiffer()
    ensures |"metadata"| == |"contents"| == |"versions"| == 8 && |"sizes"| == 5 && |"extensions"| == 10
    ensures |"signature"| == 9
    ensures "metadata"[0] != "contents"[0] && "contents"[0] != "versions"[0] && "metadata"[0] != "versions"[0]
  {
  }

  lemma FileHolds(file: Entry)
    requires file.File?
    ensures var v := EntryValue(file);
            && Look(v, "metadata") == OptionalMetadata(file.metadata) && Look(v, "contents") == Some(Strings(file.parts))
            && Look(v, "sizes") == (if file.partSizes.Some? then Some(Integers(file.partSizes.value)) else None)
            && Look(v, "versions") == (if file.versions == [] then None else Some(StringLists(file.versions)))
            && "signature" !in v
  {
    BundleKeysDiffer();
    var fields := EntryFields(file);
    BuiltHolds(fields, 0);
    BuiltHolds(fields, 1);
    BuiltHolds(fields, 2);
    BuiltHolds(fields, 3);
    BuiltHoldsNoOther(fields, "signature");
  }

  lemma FileReadsBack(file: Entry, fields: map<string, Json>, lexis: Lexis)
    requires file.File? && IsEntry(file, lexis) && LowerEntry(file, lexis) && fields == EntryValue(file)
    ensures ParseEntry(fields, lexis) == Accepted(file)
  {
    FileHolds(file);
    PathsReadBack(file.parts, lexis);
    MetadataFieldReadsBack(fields, file.metadata, lexis);
    VersionsReadBack(fields, file.versions, lexis);
    SizesReadBack(fields, file.partSizes);
  }

  lemma MarkerReadsBack(metadata: Metadata, fields: map<string, Json>, lexis: Lexis)
    requires IsMetadata(metadata, lexis) && LowerMetadata(metadata, lexis) && fields == EntryValue(Marker(metadata))
    ensures ParseEntry(fields, lexis) == Accepted(Marker(metadata))
    ensures "signature" !in fields && "contents" !in fields
  {
    BundleKeysDiffer();
    BuiltHolds(EntryFields(Marker(metadata)), 0);
    BuiltHoldsNoOther(EntryFields(Marker(metadata)), "signature");
    BuiltHoldsNoOther(EntryFields(Marker(metadata)), "contents");
    MetadataFieldReadsBack(fields, metadata, lexis);
  }

  lemma LinkReadsBack(target: string, fields: map<string, Json>, lexis: Lexis)
    requires IsTarget(target) && fields == EntryValue(Symlink(target))
    ensures ParseEntry(fields, lexis) == Accepted(Symlink(target))
    ensures "signature" !in fields && Look(fields, "contents") == Some(Str(target))
  {
    BundleKeysDiffer();
    BuiltHolds(EntryFields(Symlink(target)), 0);
    BuiltHoldsNoOther(EntryFields(Symlink(target)), "signature");
  }

  lemma EntryReadsBack(entry: Entry, fields: map<string, Json>, lexis: Lexis)
    requires IsEntry(entry, lexis) && LowerEntry(entry, lexis) && fields == EntryValue(entry)
    ensures ParseEntry(fields, lexis) == Accepted(entry)
    ensures "signature" !in fields && ("contents" in fields ==> !fields["contents"].Obj?)
  {
    match entry {
      case File(parts, metadata, versions, partSizes) =>
        FileHolds(entry);
        FileReadsBack(entry, fields, lexis);
      case Symlink(target) => LinkReadsBack(target, fields, lexis);
      case Marker(metadata) => MarkerReadsBack(metadata, fields, lexis);
    }
  }

  lemma HeldReadsBack(held: Option<Entry>, lexis: Lexis)
    requires held.Some? ==> IsEntry(held.value, lexis) && LowerEntry(held.value, lexis)
    ensures ParseHeld(HeldValue(held), lexis) == Accepted(held)
  {
    if held.Some? {
      EntryReadsBack(held.value, EntryValue(held.value), lexis);
    }
  }

  lemma DirectoryHolds(d: Directory)
    ensures var v := Built(DirectoryFields(d));
            && Look(v, "metadata") == OptionalMetadata(d.metadata)
            && Look(v, "contents") == Some(Obj(ContentsValue(d.entries)))
            && Look(v, "versions") == OptionalPaths(d.versions) && Look(v, "extensions") == OptionalPaths(d.extensions)
            && "signature" !in v
  {
    BundleKeysDiffer();
    var fields := DirectoryFields(d);
    BuiltHolds(fields, 0);
    BuiltHolds(fields, 1);
    BuiltHolds(fields, 2);
    BuiltHolds(fields, 3);
    BuiltHoldsNoOther(fields, "signature");
  }

  lemma ContentsReadBack(d: Directory, contents: map<string, Json>, lexis: Lexis)
    requires IsDirectory(d, lexis) && LowerBundle(Dir(d), lexis) && contents == ContentsValue(d.entries)
    ensures AllHeld(contents, lexis) && Layered(contents, lexis) == d.entries
  {
    forall path | path in d.entries
      ensures ParseHeld(contents[path], lexis) == Accepted(d.entries[path])
    {
      HeldReadsBack(d.entries[path], lexis);
    }
  }

  lemma DirectoryReadsBack(d: Directory, fields: map<string, Json>, lexis: Lexis)
    requires IsDirectory(d, lexis) && LowerBundle(Dir(d), lexis)
    requires Look(fields, "metadata") == OptionalMetadata(d.metadata)
    requires Look(fields, "versions") == OptionalPaths(d.versions)
    requires Look(fields, "extensions") == OptionalPaths(d.extensions)
    ensures ParseDirectory(fields, ContentsValue(d.entries), lexis) == Accepted(Dir(d))
  {
    ContentsReadBack(d, ContentsValue(d.entries), lexis);
    MetadataFieldReadsBack(fields, d.metadata, lexis);
    PathsFieldReadsBack(fields, "versions", d.versions, lexis);
    PathsFieldReadsBack(fields, "extensions", d.extensions, lexis);
  }

  /** Every bundle whose CAS paths and hashes are lower-case is read back as it was, its kind by its shape alone. */
  lemma WrittenIsRead(bundle: Bundle, lexis: Lexis)
    requires IsBundle(bundle, lexis) && LowerBundle(bundle, lexis)
    ensures ParseBundle(BundleValue(bundle), lexis) == Accepted(bundle)
  {
    match bundle {
      case Dir(d) =>
        DirectoryHolds(d);
        DirectoryReadsBack(d, Built(DirectoryFields(d)), lexis);
      case Single(entry) => EntryReadsBack(entry, EntryValue(entry), lexis);
    }
  }

  // ---- What is read may be written ----------------------------------------

  lemma ReadPathsAreNormal(value: Json, lexis: Lexis)
    requires Lowers(lexis)
    ensures ParsePaths(value, lexis).Accepted? ==> AreNormal(ParsePaths(value, lexis).value, lexis)
  {
    if ParsePaths(value, lexis).Accepted? {
      forall i | 0 <= i < |value.items|
        ensures Normal(ParsePaths(value, lexis).value[i], lexis) == ParsePaths(value, lexis).value[i]
      {
        NormalIsNormal(value.items[i].text, lexis);
      }
    }
  }

  lemma ReadXattrsAreLower(fields: map<string, Json>, lexis: Lexis)
    requires Lowers(lexis) && ParseXattrs(fields, lexis).Accepted?
    ensures var xattrs := ParseXattrs(fields, lexis).value;
            forall name :: name in xattrs && xattrs[name].InParts? ==> AreNormal(xattrs[name].parts, lexis)
  {
    var value := FieldOr(fields, "xattrs", Obj(map[]));
    forall name | name in value.fields {
      ReadPathsAreNormal(value.fields[name], lexis);
    }
  }

  lemma ReadMetadataIsLower(fields: map<string, Json>, lexis: Lexis)
    requires Lowers(lexis) && ParseMetadata(fields, lexis).Accepted?
    ensures IsMetadata(ParseMetadata(fields, lexis).value, lexis) && LowerMetadata(ParseMetadata(fields, lexis).value, lexis)
  {
    var value := FieldOr(fields, "metadata", Obj(map[]));
    ReadXattrsAreLower(value.fields, lexis);
  }

  lemma ReadFileIsLower(fields: map<string, Json>, contents: Json, lexis: Lexis)
    requires Lowers(lexis) && ParseFile(fields, contents, lexis).Accepted?
    ensures var entry := ParseFile(fields, contents, lexis).value; IsEntry(entry, lexis) && LowerEntry(entry, lexis)
  {
    ReadPathsAreNormal(contents, lexis);
    ReadMetadataIsLower(fields, lexis);
    var items := FieldOr(fields, "versions", Arr([])).items;
    forall i | 0 <= i < |items| {
      ReadPathsAreNormal(items[i], lexis);
    }
  }

  lemma ReadEntryIsLower(fields: map<string, Json>, lexis: Lexis)
    requires Lowers(lexis) && ParseEntry(fields, lexis).Accepted?
    ensures var entry := ParseEntry(fields, lexis).value; IsEntry(entry, lexis) && LowerEntry(entry, lexis)
  {
    if "contents" !in fields {
      ReadMetadataIsLower(fields, lexis);
    } else if fields["contents"].Arr? {
      ReadFileIsLower(fields, fields["contents"], lexis);
    }
  }

  lemma ReadDirectoryIsLower(fields: map<string, Json>, contents: map<string, Json>, lexis: Lexis)
    requires Lowers(lexis) && ParseDirectory(fields, contents, lexis).Accepted?
    ensures var bundle := ParseDirectory(fields, contents, lexis).value;
            IsBundle(bundle, lexis) && LowerBundle(bundle, lexis)
  {
    ReadMetadataIsLower(fields, lexis);
    ReadPathsAreNormal(FieldOr(fields, "versions", Arr([])), lexis);
    ReadPathsAreNormal(FieldOr(fields, "extensions", Arr([])), lexis);
    forall path | path in contents && contents[path].Obj?
      ensures var held := ParseHeld(contents[path], lexis).value; held.Some? ==> LowerEntry(held.value, lexis)
    {
      if "signature" !in contents[path].fields {
        ReadEntryIsLower(contents[path].fields, lexis);
      }
    }
  }

  /** Whatever is read is a bundle with its CAS paths and hashes lower-case. */
  lemma ReadIsLower(value: Json, lexis: Lexis)
    requires Lowers(lexis) && ParseBundle(value, lexis).Accepted?
    ensures var bundle := ParseBundle(value, lexis).value; IsBundle(bundle, lexis) && LowerBundle(bundle, lexis)
  {
    if "contents" in value.fields && value.fields["contents"].Obj? {
      ReadDirectoryIsLower(value.fields, value.fields["contents"].fields, lexis);
    } else {
      ReadEntryIsLower(value.fields, lexis);
    }
  }

  /** Of every JSON value read, reading what is written of it is reading it. */
  lemma ReadAgainIsRead(value: Json, lexis: Lexis)
    requires Lowers(lexis) && ParseBundle(value, lexis).Accepted?
    ensures ParseBundle(BundleValue(ParseBundle(value, lexis).value), lexis) == ParseBundle(value, lexis)
  {
    ReadIsLower(value, lexis);
    WrittenIsRead(ParseBundle(value, lexis).value, lexis);
  }

  /** A bundle is read back as it was exactly if its CAS paths and hashes are lower-case. */
  lemma ReadBackExactlyIfLower(bundle: Bundle, lexis: Lexis)
    requires Lowers(lexis) && IsBundle(bundle, lexis)
    ensures ParseBundle(BundleValue(bundle), lexis) == Accepted(bundle) <==> LowerBundle(bundle, lexis)
  {
    if LowerBundle(bundle, lexis) {
      WrittenIsRead(bundle, lexis);
    } else if ParseBundle(BundleValue(bundle), lexis) == Accepted(bundle) {
      ReadIsLower(BundleValue(bundle), lexis);
    }
  }
}
