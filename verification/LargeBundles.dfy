/** Bundles stored that a reader refuses as larger, once decompressed, than it takes. */
module LargeBundles {
  import opened Wrappers
  import opened PartPaths
  import opened Shapes
  import opened Overlay
  import opened Vaults
  import opened Reading
  import opened Storing
  import opened Layerings
  import opened Histories
  import opened Encodings
  import opened SomeVaults

  /** A version that fits in one object, but not in what a reader decompresses, is stored and then refused. */
  lemma LargeIsRefused(v: Vault, entries: map<string, Entry>, metadata: Metadata, versions: seq<string>, w: Writing,
                       limits: Limits, cap: nat, max: nat)
    requires IsVault(v)
    requires var d := Directory(Lifted(entries), metadata, versions, []);
             && !v.refused(Dir(d), w.maxObjectBytes) && v.storedBytes(ObjectOf(v, d, w.encrypted)) <= w.maxObjectBytes
             && v.plainBytes(Dir(d)) > cap
    ensures var h := Run(v, [Stored(entries, metadata, versions, w, limits)]);
            && h.newest.Some? && h.newest.value.entries == entries
            && !WhollySmall(v, h.newest.value.stored.path, cap)
            && ReadDirectory(ReaderOf(v, h.ever, cap), h.newest.value.stored.path, max) == Failed(UnsupportedBundle)
  {
    var d := Directory(Lifted(entries), metadata, versions, []);
    var o := ObjectOf(v, d, w.encrypted);
    var p := PathOf(v, o);
    var h := OneStored(v, entries, metadata, versions, w, limits);
    NamedIs(v, o, p);
  }

  /** The first version is stored as one object, if it fits. */
  lemma OneStored(v: Vault, entries: map<string, Entry>, metadata: Metadata, versions: seq<string>, w: Writing,
                  limits: Limits) returns (h: History)
    requires var d := Directory(Lifted(entries), metadata, versions, []);
             !v.refused(Dir(d), w.maxObjectBytes) && v.storedBytes(ObjectOf(v, d, w.encrypted)) <= w.maxObjectBytes
    ensures h == Run(v, [Stored(entries, metadata, versions, w, limits)])
    ensures var o := ObjectOf(v, Directory(Lifted(entries), metadata, versions, []), w.encrypted);
            && h.newest.Some? && h.newest.value.entries == entries && h.newest.value.stored.path == PathOf(v, o)
            && h.ever == map[v.address(o) := o]
  {
    var event := Stored(entries, metadata, versions, w, limits);
    var d := Directory(Lifted(entries), metadata, versions, []);
    var after := FitsOne(v, d, w, limits);
    assert [event][..0] == [];
    h := StoreNext(v, NOTHING_YET, d, entries, w, limits);
    assert map[] + after.sink == after.sink;
  }

  lemma FitsOne(v: Vault, d: Directory, w: Writing, limits: Limits) returns (after: Attempt<StoredVersion>)
    requires !v.refused(Dir(d), w.maxObjectBytes) && v.storedBytes(ObjectOf(v, d, w.encrypted)) <= w.maxObjectBytes
    ensures after == StoreVersion(v, None, map[], d, w, limits)
    ensures var o := ObjectOf(v, d, w.encrypted);
            && after.stored.Some? && after.stored.value.path == PathOf(v, o)
            && after.sink == map[v.address(o) := o]
  {
    var o := ObjectOf(v, d, w.encrypted);
    var one := StoreOne(v, map[], d, w);
    assert one == Attempt(Some(PathOf(v, o)), map[v.address(o) := o]);
    after := StoreVersion(v, None, map[], d, w, limits);
  }

  // ---- A vault that compresses well ---------------------------------------

  /** Every object compressed into one byte. */
  ghost function Compressing(): Vault {
    Spelling().(storedBytes := _ => 1)
  }

  function LongPath(length: nat): string {
    seq(length, _ => 'x')
  }

  /** Its text is longer than any path it holds an entry at. */
  lemma PathIsShorter(d: Directory, path: string)
    requires path in d.entries
    ensures |path| < |BundleText()(Dir(d))|
  {
    var pair := (path, d.entries[path]);
    var code := Both(Spelled, Maybe(EntryText()));
    SpelledIsLonger(path);
    BothIsLonger(Spelled, Maybe(EntryText()), pair);
    PairsHold(d.entries);
    EachIsLonger(code, Pairs(d.entries), pair);
    LayerIsShorter(d);
    assert LayerText()(d.entries) == EachOf(code, Pairs(d.entries));
  }

  lemma LayerIsShorter(d: Directory)
    ensures |LayerText()(d.entries)| <= |BundleText()(Dir(d))|
  {
    var rest := Both(MetadataText(), Names());
    BothIsLonger(Names(), Both(LayerText(), rest), DirectorySides(d));
    BothIsLonger(LayerText(), rest, (d.entries, (d.metadata, d.versions)));
    EachIsLonger(DirectoryText(), [d], d);
    assert Listed(Some(d)) == [d];
    BothIsLonger(Maybe(DirectoryText()), Maybe(EntryText()), BundleSides(Dir(d)));
  }

  /** However much a reader decompresses, some version stored within one byte is more. */
  lemma SomeVersionIsRefused(limits: Limits, cap: nat, max: nat)
    ensures IsVault(Compressing())
    ensures var v, entries := Compressing(), map[LongPath(cap) := Marker(NO_METADATA)];
            var h := Run(v, [Stored(entries, NO_METADATA, [], Writing(false, 1), limits)]);
            && h.newest.Some? && h.newest.value.entries == entries
            && !WhollySmall(v, h.newest.value.stored.path, cap)
            && ReadDirectory(ReaderOf(v, h.ever, cap), h.newest.value.stored.path, max) == Failed(UnsupportedBundle)
  {
    CompressingIsVault();
    var entries := map[LongPath(cap) := Marker(NO_METADATA)];
    PathIsShorter(Directory(Lifted(entries), NO_METADATA, [], []), LongPath(cap));
    LargeIsRefused(Compressing(), entries, NO_METADATA, [], Writing(false, 1), limits, cap, max);
  }

  lemma CompressingIsVault()
    ensures IsVault(Compressing())
  {
    SomeVaultIs();
    var v, w := Compressing(), Spelling();
    assert v.address == w.address && v.keyOf == w.keyOf && v.rank == w.rank && v.parse == w.parse && v.text == w.text;
  }
}
