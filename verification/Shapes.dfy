/** The kinds of bundle and of directory entry. */
module Shapes {
  import opened Wrappers
  import opened PartPaths

  datatype Xattr = Inline(base64: string) | InParts(parts: seq<string>)

  datatype Metadata = Metadata(
    created: Option<string>,
    modified: Option<string>,
    sizeBytes: Option<int>,
    writable: bool,
    executable: bool,
    algorithm: Option<string>,
    hash: Option<string>,
    xattrs: map<string, Xattr>,
    contentType: Option<string>)

  const NO_METADATA := Metadata(None, None, None, false, false, None, None, map[], None)

  datatype Entry =
    | File(parts: seq<string>, metadata: Metadata, versions: seq<seq<string>>, partSizes: Option<seq<int>>)
    | Symlink(target: string)
    | Marker(metadata: Metadata)

  /** A `None` entry deletes its path from the extensions beneath. */
  type Layer = map<string, Option<Entry>>

  datatype Directory = Directory(
    entries: Layer,
    metadata: Metadata,
    versions: seq<string>,
    extensions: seq<string>)

  datatype Bundle = Single(entry: Entry) | Dir(directory: Directory)

  const MAX_EXTENSIONS: nat := 1024

  datatype BundleError = MalformedBundle | UnsupportedBundle | UnverifiedContent

  /** What is left of `layer` once its tombstones are dropped. */
  function Present(layer: Layer): (entries: map<string, Entry>)
    ensures forall path :: path in entries <==> path in layer && layer[path].Some?
    ensures forall path :: path in entries ==> Some(entries[path]) == layer[path]
  {
    map path | path in layer && layer[path].Some? :: layer[path].value
  }

  function Lifted(entries: map<string, Entry>): (layer: Layer)
    ensures layer.Keys == entries.Keys
    ensures forall path :: path in entries ==> layer[path] == Some(entries[path])
  {
    map path | path in entries :: Some(entries[path])
  }
}
