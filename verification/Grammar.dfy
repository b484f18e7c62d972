/** Which JSON values are bundles, and of what: each field by what it must be, and may be left out for. */
module Grammar {
  import opened Wrappers
  import opened Text
  import opened PartPaths
  import opened Shapes
  import opened Bundles

  // ---- CAS paths ----------------------------------------------------------

  /** Of a CAS path, the algorithm and the hash are lower-cased, and what follows is kept. */
  lemma NormalExactly(algorithm: string, hash: string, rest: string, lexis: Lexis)
    requires '/' !in algorithm && '/' !in hash
    ensures Normal(algorithm, lexis) == lexis.lower(algorithm)
    ensures Normal(algorithm + "/" + hash, lexis) == lexis.lower(algorithm) + "/" + lexis.lower(hash)
    ensures Normal(algorithm + "/" + (hash + "/" + rest), lexis) ==
            lexis.lower(algorithm) + "/" + (lexis.lower(hash) + "/" + rest)
  {
    SlashAfter(algorithm, "");
    SlashAfter(hash, "");
    LowerAfter(algorithm, hash, 2, lexis);
    LowerAfter(algorithm, hash + "/" + rest, 2, lexis);
    LowerAfter(hash, rest, 1, lexis);
    assert LowerSegments(hash, 1, lexis) == lexis.lower(hash);
  }

  // ---- What a value is ----------------------------------------------------

  predicate IsTextAt(fields: map<string, Json>, key: string, text: Option<string>) {
    if key in fields then fields[key].Str? && text == Some(fields[key].text) else text == None
  }

  predicate IsLowerAt(fields: map<string, Json>, key: string, text: Option<string>, lexis: Lexis) {
    if key in fields then fields[key].Str? && text == Some(lexis.lower(fields[key].text)) else text == None
  }

  predicate IsFlagAt(fields: map<string, Json>, key: string, flag: bool) {
    if key in fields then fields[key] == Bool(flag) else !flag
  }

  predicate IsSizeAt(fields: map<string, Json>, size: Option<int>) {
    if "size" in fields then fields["size"].Integer? && fields["size"].value >= 0 && size == Some(fields["size"].value)
    else size == None
  }

  predicate ArePaths(value: Json, paths: seq<string>, lexis: Lexis) {
    && value.Arr? && |value.items| == |paths|
    && forall i :: 0 <= i < |paths| ==> value.items[i].Str? && paths[i] == Normal(value.items[i].text, lexis)
  }

  predicate ArePathsAt(fields: map<string, Json>, key: string, paths: seq<string>, lexis: Lexis) {
    if key in fields then ArePaths(fields[key], paths, lexis) else paths == []
  }

  predicate IsXattrValue(value: Json, xattr: Xattr, lexis: Lexis) {
    match xattr
    case Inline(base64) => value == Str(base64)
    case InParts(parts) => ArePaths(value, parts, lexis)
  }

  ghost predicate AreXattrsAt(fields: map<string, Json>, xattrs: map<string, Xattr>, lexis: Lexis) {
    if "xattrs" in fields then
      && fields["xattrs"].Obj? && fields["xattrs"].fields.Keys == xattrs.Keys
      && forall name :: name in xattrs ==> IsXattrValue(fields["xattrs"].fields[name], xattrs[name], lexis)
    else xattrs == map[]
  }

  ghost predicate AreMetadata(fields: map<string, Json>, m: Metadata, lexis: Lexis) {
    && IsTextAt(fields, "created", m.created) && IsTextAt(fields, "modified", m.modified) && IsSizeAt(fields, m.sizeBytes)
    && IsFlagAt(fields, "writable", m.writable) && IsFlagAt(fields, "executable", m.executable)
    && IsLowerAt(fields, "algorithm", m.algorithm, lexis) && IsLowerAt(fields, "hash", m.hash, lexis)
    && IsTextAt(fields, "content_type", m.contentType) && AreXattrsAt(fields, m.xattrs, lexis)
    && (m.algorithm.Some? <==> m.hash.Some?) && (m.contentType.Some? ==> lexis.isMediaType(m.contentType.value))
    && forall name :: name in m.xattrs ==>
         && name != "" && '\0' !in name && lexis.isUtf8(name)
         && (m.xattrs[name].Inline? ==> lexis.isBase64(m.xattrs[name].base64))
  }

  ghost predicate IsMetadataAt(fields: map<string, Json>, m: Metadata, lexis: Lexis) {
    if "metadata" in fields then fields["metadata"].Obj? && AreMetadata(fields["metadata"].fields, m, lexis)
    else m == NO_METADATA
  }

  predicate AreVersionsAt(fields: map<string, Json>, versions: seq<seq<string>>, lexis: Lexis) {
    if "versions" in fields then
      && fields["versions"].Arr? && |fields["versions"].items| == |versions|
      && forall i :: 0 <= i < |versions| ==> ArePaths(fields["versions"].items[i], versions[i], lexis)
    else versions == []
  }

  predicate AreSizesAt(fields: map<string, Json>, sizes: Option<seq<int>>) {
    if "sizes" in fields then
      && fields["sizes"].Arr? && sizes.Some? && |fields["sizes"].items| == |sizes.value|
      && forall i :: 0 <= i < |sizes.value| ==> fields["sizes"].items[i] == Integer(sizes.value[i])
    else sizes == None
  }

  /** A file has an array of paths for contents, a symlink a string, and a directory's marker none. */
  ghost predicate DescribesEntry(fields: map<string, Json>, entry: Entry, lexis: Lexis) {
    match entry
    case Marker(metadata) => "contents" !in fields && IsMetadataAt(fields, metadata, lexis)
    case Symlink(target) =>
      "contents" in fields && fields["contents"] == Str(target) && target != "" && target[0] != '/' && '\0' !in target
    case File(parts, metadata, versions, sizes) =>
      && "contents" in fields && ArePaths(fields["contents"], parts, lexis)
      && IsMetadataAt(fields, metadata, lexis) && AreVersionsAt(fields, versions, lexis) && AreSizesAt(fields, sizes)
      && (sizes.Some? ==> Measure(sizes.value, |parts|, metadata.sizeBytes))
  }

  function Sum(sizes: seq<int>): int {
    if sizes == [] then 0 else Sum(sizes[..|sizes| - 1]) + sizes[|sizes| - 1]
  }

  /** A size for each part, none negative, and as many bytes in all as the file has. */
  predicate Measure(sizes: seq<int>, parts: nat, sizeBytes: Option<int>) {
    |sizes| == parts && (forall i :: 0 <= i < |sizes| ==> 0 <= sizes[i]) && (sizeBytes.Some? ==> sizeBytes.value == Sum(sizes))
  }

  /** A tombstone is null, and anything else held an entry that is not signed. */
  ghost predicate DescribesHeld(value: Json, held: Option<Entry>, lexis: Lexis) {
    match held
    case None => value == Null
    case Some(entry) => value.Obj? && "signature" !in value.fields && DescribesEntry(value.fields, entry, lexis)
  }

  ghost predicate DescribesAll(contents: map<string, Json>, entries: Layer, lexis: Lexis) {
    contents.Keys == entries.Keys && forall path :: path in entries ==> DescribesHeld(contents[path], entries[path], lexis)
  }

  /** Segments each of which names something. */
  predicate AreNames(segments: seq<string>) {
    forall i :: 0 <= i < |segments| ==> segments[i] != "" && segments[i] != "." && segments[i] != ".."
  }

  /** A directory has an object for contents, of what it holds by path. */
  ghost predicate Describes(value: Json, bundle: Bundle, lexis: Lexis) {
    && value.Obj? && "signature" !in value.fields
    && match bundle
       case Single(entry) => DescribesEntry(value.fields, entry, lexis)
       case Dir(d) =>
         && "contents" in value.fields && value.fields["contents"].Obj?
         && DescribesAll(value.fields["contents"].fields, d.entries, lexis)
         && (forall path :: path in d.entries ==> '\0' !in path && AreNames(Split(path, '/')))
         && IsMetadataAt(value.fields, d.metadata, lexis)
         && ArePathsAt(value.fields, "versions", d.versions, lexis) && ArePathsAt(value.fields, "extensions", d.extensions, lexis)
  }

  // ---- What is read -------------------------------------------------------

  lemma PathsExactly(value: Json, paths: seq<string>, lexis: Lexis)
    ensures ParsePaths(value, lexis) == Accepted(paths) <==> ArePaths(value, paths, lexis)
  {
    if ArePaths(value, paths, lexis) {
      assert forall i :: 0 <= i < |value.items| ==> value.items[i].Str? && paths[i] == Normal(value.items[i].text, lexis);
      assert ParsePaths(value, lexis).value == paths;
    }
  }

  lemma XattrExactly(value: Json, xattr: Xattr, lexis: Lexis)
    ensures ParseXattr(value, lexis) == Accepted(xattr) <==> IsXattrValue(value, xattr, lexis)
  {
    if xattr.InParts? {
      PathsExactly(value, xattr.parts, lexis);
    }
  }

  lemma XattrsExactly(fields: map<string, Json>, xattrs: map<string, Xattr>, lexis: Lexis)
    ensures ParseXattrs(fields, lexis) == Accepted(xattrs) <==> AreXattrsAt(fields, xattrs, lexis)
  {
    if "xattrs" in fields && fields["xattrs"].Obj? {
      var value := fields["xattrs"].fields;
      forall name | name in value && name in xattrs
        ensures ParseXattr(value[name], lexis) == Accepted(xattrs[name]) <==> IsXattrValue(value[name], xattrs[name], lexis)
      {
        XattrExactly(value[name], xattrs[name], lexis);
      }
      if AreXattrsAt(fields, xattrs, lexis) {
        assert forall name :: name in value ==> name in xattrs && ParseXattr(value[name], lexis) == Accepted(xattrs[name]);
        assert ParseXattrs(fields, lexis).value == xattrs;
      }
      if ParseXattrs(fields, lexis) == Accepted(xattrs) {
        assert forall name :: name in value <==> name in xattrs;
      }
    }
  }

  lemma MetadataOfExactly(fields: map<string, Json>, m: Metadata, lexis: Lexis)
    ensures MetadataOf(fields, lexis) == Accepted(m) <==> AreMetadata(fields, m, lexis)
  {
    XattrsExactly(fields, m.xattrs, lexis);
  }

  lemma MetadataExactly(fields: map<string, Json>, m: Metadata, lexis: Lexis)
    ensures ParseMetadata(fields, lexis) == Accepted(m) <==> IsMetadataAt(fields, m, lexis)
  {
    if "metadata" in fields {
      if fields["metadata"].Obj? {
        MetadataOfExactly(fields["metadata"].fields, m, lexis);
      }
    } else {
      MetadataOfExactly(map[], m, lexis);
      NothingIsDefault(m, lexis);
    }
  }

  lemma NothingIsDefault(m: Metadata, lexis: Lexis)
    ensures AreMetadata(map[], m, lexis) <==> m == NO_METADATA
  {
  }

  lemma VersionsExactly(fields: map<string, Json>, versions: seq<seq<string>>, lexis: Lexis)
    ensures ParseVersions(fields, lexis) == Accepted(versions) <==> AreVersionsAt(fields, versions, lexis)
  {
    if "versions" in fields && fields["versions"].Arr? {
      var items := fields["versions"].items;
      forall i | 0 <= i < |items| && i < |versions|
        ensures ParsePaths(items[i], lexis) == Accepted(versions[i]) <==> ArePaths(items[i], versions[i], lexis)
      {
        PathsExactly(items[i], versions[i], lexis);
      }
      if AreVersionsAt(fields, versions, lexis) {
        forall i | 0 <= i < |items|
          ensures ParsePaths(items[i], lexis) == Accepted(versions[i])
        {
          assert ArePaths(items[i], versions[i], lexis);
        }
        assert AllPaths(items, lexis);
        assert ParseVersions(fields, lexis).value == versions;
      }
      if ParseVersions(fields, lexis) == Accepted(versions) {
        assert forall i :: 0 <= i < |items| ==> ParsePaths(items[i], lexis).Accepted?;
        forall i | 0 <= i < |versions|
          ensures ArePaths(items[i], versions[i], lexis)
        {
          assert ParsePaths(items[i], lexis) == Accepted(versions[i]);
        }
      }
    } else if "versions" !in fields {
      assert AllPaths([], lexis);
      assert ParseVersions(fields, lexis).value == [];
    }
  }

  lemma SizesExactly(fields: map<string, Json>, sizes: Option<seq<int>>)
    ensures ParseSizes(fields) == Accepted(sizes) <==> AreSizesAt(fields, sizes)
  {
    if AreSizesAt(fields, sizes) && "sizes" in fields {
      var items := fields["sizes"].items;
      assert forall i :: 0 <= i < |items| ==> items[i] == Integer(sizes.value[i]);
      assert ParseSizes(fields).value.value == sizes.value;
    }
  }

  lemma {:induction false} SumMore(first: int, sizes: seq<int>)
    ensures Sum([first] + sizes) == first + Sum(sizes)
    decreases |sizes|
  {
    var all := [first] + sizes;
    if sizes == [] {
      assert all[..0] == [];
    } else {
      SumMore(first, sizes[..|sizes| - 1]);
      assert all[..|all| - 1] == [first] + sizes[..|sizes| - 1];
    }
  }

  lemma {:induction false} TotalIsSum(sizes: seq<int>)
    ensures Total(sizes) == Sum(sizes)
  {
    if sizes != [] {
      TotalIsSum(sizes[1..]);
      SumMore(sizes[0], sizes[1..]);
      assert sizes == [sizes[0]] + sizes[1..];
    }
  }

  lemma FileExactly(fields: map<string, Json>, entry: Entry, lexis: Lexis)
    requires "contents" in fields && entry.File?
    ensures ParseFile(fields, fields["contents"], lexis) == Accepted(entry) <==> DescribesEntry(fields, entry, lexis)
  {
    PathsExactly(fields["contents"], entry.parts, lexis);
    MetadataExactly(fields, entry.metadata, lexis);
    VersionsExactly(fields, entry.versions, lexis);
    SizesExactly(fields, entry.partSizes);
    AcceptedMetadataIs(fields, entry.metadata, lexis);
    if entry.partSizes.Some? {
      TotalIsSum(entry.partSizes.value);
    }
  }

  lemma AcceptedMetadataIs(fields: map<string, Json>, m: Metadata, lexis: Lexis)
    ensures IsMetadataAt(fields, m, lexis) ==> IsMetadata(m, lexis)
  {
  }

  lemma EntryExactly(fields: map<string, Json>, entry: Entry, lexis: Lexis)
    ensures ParseEntry(fields, lexis) == Accepted(entry) <==> DescribesEntry(fields, entry, lexis)
  {
    match entry {
      case Marker(metadata) => MetadataExactly(fields, metadata, lexis);
      case Symlink(_) =>
      case File(_, _, _, _) =>
        if "contents" in fields {
          FileExactly(fields, entry, lexis);
        }
    }
  }

  lemma HeldExactly(value: Json, held: Option<Entry>, lexis: Lexis)
    ensures ParseHeld(value, lexis) == Accepted(held) <==> DescribesHeld(value, held, lexis)
  {
    if held.Some? && value.Obj? {
      EntryExactly(value.fields, held.value, lexis);
    }
  }

  lemma ContentsExactly(contents: map<string, Json>, entries: Layer, lexis: Lexis)
    ensures AllHeld(contents, lexis) && Layered(contents, lexis) == entries <==> DescribesAll(contents, entries, lexis)
  {
    forall path | path in contents && path in entries
      ensures ParseHeld(contents[path], lexis) == Accepted(entries[path]) <==> DescribesHeld(contents[path], entries[path], lexis)
    {
      HeldExactly(contents[path], entries[path], lexis);
    }
    if DescribesAll(contents, entries, lexis) {
      assert forall path :: path in contents ==> path in entries && ParseHeld(contents[path], lexis) == Accepted(entries[path]);
      assert Layered(contents, lexis) == entries;
    }
  }

  lemma PathsAtExactly(fields: map<string, Json>, key: string, paths: seq<string>, lexis: Lexis)
    ensures ParsePaths(FieldOr(fields, key, Arr([])), lexis) == Accepted(paths) <==> ArePathsAt(fields, key, paths, lexis)
  {
    PathsExactly(FieldOr(fields, key, Arr([])), paths, lexis);
  }

  lemma HeldEntriesAre(contents: map<string, Json>, entries: Layer, lexis: Lexis)
    requires DescribesAll(contents, entries, lexis)
    ensures forall path :: path in entries && entries[path].Some? ==> IsEntry(entries[path].value, lexis)
  {
    forall path | path in entries && entries[path].Some?
      ensures IsEntry(entries[path].value, lexis)
    {
      assert DescribesHeld(contents[path], entries[path], lexis);
      DescribedIsEntry(contents[path].fields, entries[path].value, lexis);
    }
  }

  lemma DescribedIsEntry(fields: map<string, Json>, entry: Entry, lexis: Lexis)
    requires DescribesEntry(fields, entry, lexis)
    ensures IsEntry(entry, lexis)
  {
    if entry.File? && entry.partSizes.Some? {
      TotalIsSum(entry.partSizes.value);
    }
  }

  lemma EntryPathExactly(path: string)
    ensures IsEntryPath(path) <==> '\0' !in path && AreNames(Split(path, '/'))
  {
    var segments := Split(path, '/');
    assert AreNames(segments) ==> forall segment :: segment in segments ==> segment != "" && segment != "." && segment != "..";
    assert forall i :: 0 <= i < |segments| ==> segments[i] in segments;
  }

  lemma DirectoryExactly(fields: map<string, Json>, d: Directory, lexis: Lexis)
    requires "signature" !in fields && "contents" in fields && fields["contents"].Obj?
    ensures ParseDirectory(fields, fields["contents"].fields, lexis) == Accepted(Dir(d)) <==> Describes(Obj(fields), Dir(d), lexis)
  {
    var contents := fields["contents"].fields;
    ContentsExactly(contents, d.entries, lexis);
    MetadataExactly(fields, d.metadata, lexis);
    AcceptedMetadataIs(fields, d.metadata, lexis);
    PathsAtExactly(fields, "versions", d.versions, lexis);
    PathsAtExactly(fields, "extensions", d.extensions, lexis);
    forall path | path in d.entries
      ensures IsEntryPath(path) <==> '\0' !in path && AreNames(Split(path, '/'))
    {
      EntryPathExactly(path);
    }
    if DescribesAll(contents, d.entries, lexis) {
      HeldEntriesAre(contents, d.entries, lexis);
    }
  }

  /** A JSON value is read as a bundle if and only if it describes that one. */
  lemma ReadExactly(value: Json, bundle: Bundle, lexis: Lexis)
    ensures ParseBundle(value, lexis) == Accepted(bundle) <==> Describes(value, bundle, lexis)
  {
    if value.Obj? && "signature" !in value.fields {
      if "contents" in value.fields && value.fields["contents"].Obj? {
        if bundle.Dir? {
          DirectoryExactly(value.fields, bundle.directory, lexis);
        }
      } else if bundle.Single? {
        EntryExactly(value.fields, bundle.entry, lexis);
      }
    }
  }

  /** One that is refused may be as not supported if and only if it is signed, or holds what is; else it is malformed. */
  lemma SignedIsUnsupported(value: Json, lexis: Lexis)
    requires ParseBundle(value, lexis).Rejected?
    ensures UnsupportedBundle in ParseBundle(value, lexis).errors <==>
            && value.Obj?
            && ("signature" in value.fields ||
                ("contents" in value.fields && value.fields["contents"].Obj? &&
                 exists path :: path in value.fields["contents"].fields && IsSigned(value.fields["contents"].fields[path])))
    ensures ParseBundle(value, lexis).errors != {}
    ensures forall error :: error in ParseBundle(value, lexis).errors ==> error == UnsupportedBundle || error == MalformedBundle
  {
    if value.Obj? && "signature" !in value.fields && "contents" in value.fields && value.fields["contents"].Obj? {
      var contents := value.fields["contents"].fields;
      forall path | path in contents
        ensures IsSigned(contents[path]) <==> ParseHeld(contents[path], lexis) == Rejected({UnsupportedBundle})
        ensures ParseHeld(contents[path], lexis).Rejected? && !IsSigned(contents[path]) ==>
                  ParseHeld(contents[path], lexis).errors == {MalformedBundle}
      {
        HeldIsRefused(contents[path], lexis);
      }
      if !AllHeld(contents, lexis) {
        var path :| path in contents && ParseHeld(contents[path], lexis).Rejected?;
        assert exists error :: error in ParseHeld(contents[path], lexis).errors;
      }
    } else if value.Obj? {
      EntryIsRefused(value.fields, lexis);
    }
  }

  predicate IsSigned(value: Json) {
    value.Obj? && "signature" in value.fields
  }

  lemma EntryIsRefused(fields: map<string, Json>, lexis: Lexis)
    ensures ParseEntry(fields, lexis).Rejected? ==> ParseEntry(fields, lexis).errors == {MalformedBundle}
  {
  }

  lemma HeldIsRefused(value: Json, lexis: Lexis)
    ensures IsSigned(value) <==> ParseHeld(value, lexis) == Rejected({UnsupportedBundle})
    ensures ParseHeld(value, lexis).Rejected? && !IsSigned(value) ==> ParseHeld(value, lexis).errors == {MalformedBundle}
  {
    if value.Obj? {
      EntryIsRefused(value.fields, lexis);
    }
    assert MalformedBundle in {MalformedBundle} && MalformedBundle !in {UnsupportedBundle};
  }
}
