/** A vault there could be, and a node: what is asked of addresses and digests can be met. */
module SomeVaults {
  import opened Wrappers
  import opened Hex
  import opened PartPaths
  import opened Shapes
  import opened Overlay
  import opened Splitting
  import opened Vaults
  import opened Layerings
  import opened Backups
  import opened Encodings

  // ---- Values spelled out -------------------------------------------------

  type Texts = seq<string>

  function FlagNumber(flag: bool): nat {
    if flag then 1 else 0
  }

  function Signed(i: int): (nat, nat) {
    if i < 0 then (0, -i) else (1, i)
  }

  function Names(): Texts -> string {
    Each(Spelled)
  }

  lemma TextsTell()
    ensures Tells(Names()) && Tells(Maybe(Spelled))
  {
    SpelledTells();
    EachTells(Spelled);
    MaybeTells(Spelled);
  }

  function Flags(): bool -> string {
    Via(FlagNumber, Ones)
  }

  function Integers(): int -> string {
    Via(Signed, Both(Ones, Ones))
  }

  function OctetOf(b: Byte): nat {
    b
  }

  function Octets(): Bytes -> string {
    Each(Via(OctetOf, Ones))
  }

  lemma NumbersTell()
    ensures Tells(Flags()) && Tells(Integers()) && Tells(Octets())
  {
    OnesTell();
    BothTell(Ones, Ones);
    ViaTells(FlagNumber, Ones);
    ViaTells(Signed, Both(Ones, Ones));
    ViaTells(OctetOf, Ones);
    EachTells(Via(OctetOf, Ones));
  }

  // ---- Entries and bundles ------------------------------------------------

  function XattrSides(x: Xattr): (Option<string>, Option<Texts>) {
    match x
    case Inline(base64) => (Some(base64), None)
    case InParts(parts) => (None, Some(parts))
  }

  function Xattrs(): Xattr -> string {
    Via(XattrSides, Both(Maybe(Spelled), Maybe(Names())))
  }

  lemma XattrsTell()
    ensures Tells(Xattrs())
  {
    TextsTell();
    MaybeTells(Names());
    BothTell(Maybe(Spelled), Maybe(Names()));
    ViaTells(XattrSides, Both(Maybe(Spelled), Maybe(Names())));
  }

  type Times = (Option<string>, (Option<string>, Option<int>))
  type Modes = (bool, bool)
  type Kinds = (Option<string>, (Option<string>, (Option<string>, map<string, Xattr>)))

  function MetadataSides(m: Metadata): (Times, (Modes, Kinds)) {
    ((m.created, (m.modified, m.sizeBytes)), ((m.writable, m.executable), (m.algorithm, (m.hash, (m.contentType, m.xattrs)))))
  }

  function TimesText(): Times -> string {
    Both(Maybe(Spelled), Both(Maybe(Spelled), Maybe(Integers())))
  }

  function ModesText(): Modes -> string {
    Both(Flags(), Flags())
  }

  function KindsText(): Kinds -> string {
    Both(Maybe(Spelled), Both(Maybe(Spelled), Both(Maybe(Spelled), MapOf(Xattrs()))))
  }

  function MetadataText(): Metadata -> string {
    Via(MetadataSides, Both(TimesText(), Both(ModesText(), KindsText())))
  }

  lemma TimesTell()
    ensures Tells(TimesText())
  {
    TextsTell();
    NumbersTell();
    MaybeTells(Integers());
    BothTell(Maybe(Spelled), Maybe(Integers()));
    BothTell(Maybe(Spelled), Both(Maybe(Spelled), Maybe(Integers())));
  }

  lemma KindsTell()
    ensures Tells(KindsText())
  {
    TextsTell();
    XattrsTell();
    MapTells(Xattrs());
    BothTell(Maybe(Spelled), MapOf(Xattrs()));
    BothTell(Maybe(Spelled), Both(Maybe(Spelled), MapOf(Xattrs())));
    BothTell(Maybe(Spelled), Both(Maybe(Spelled), Both(Maybe(Spelled), MapOf(Xattrs()))));
  }

  lemma MetadataTells()
    ensures Tells(MetadataText())
  {
    TimesTell();
    NumbersTell();
    BothTell(Flags(), Flags());
    KindsTell();
    BothTell(ModesText(), KindsText());
    BothTell(TimesText(), Both(ModesText(), KindsText()));
    ViaTells(MetadataSides, Both(TimesText(), Both(ModesText(), KindsText())));
  }

  type FileSides = (Metadata, (Texts, (seq<Texts>, Option<seq<int>>)))

  function EntrySides(e: Entry): (Option<FileSides>, (Option<string>, Option<Metadata>)) {
    match e
    case File(parts, metadata, versions, partSizes) => (Some((metadata, (parts, (versions, partSizes)))), (None, None))
    case Symlink(target) => (None, (Some(target), None))
    case Marker(metadata) => (None, (None, Some(metadata)))
  }

  function FileText(): FileSides -> string {
    Both(MetadataText(), Both(Names(), Both(Each(Names()), Maybe(Each(Integers())))))
  }

  function OtherText(): ((Option<string>, Option<Metadata>)) -> string {
    Both(Maybe(Spelled), Maybe(MetadataText()))
  }

  function EntryText(): Entry -> string {
    Via(EntrySides, Both(Maybe(FileText()), OtherText()))
  }

  lemma FileTells()
    ensures Tells(FileText())
  {
    TextsTell();
    NumbersTell();
    MetadataTells();
    EachTells(Names());
    EachTells(Integers());
    MaybeTells(Each(Integers()));
    BothTell(Each(Names()), Maybe(Each(Integers())));
    BothTell(Names(), Both(Each(Names()), Maybe(Each(Integers()))));
    BothTell(MetadataText(), Both(Names(), Both(Each(Names()), Maybe(Each(Integers())))));
  }

  lemma OtherTells()
    ensures Tells(OtherText())
  {
    TextsTell();
    MetadataTells();
    MaybeTells(MetadataText());
    BothTell(Maybe(Spelled), Maybe(MetadataText()));
  }

  lemma EntryTells()
    ensures Tells(EntryText())
  {
    FileTells();
    OtherTells();
    MaybeTells(FileText());
    BothTell(Maybe(FileText()), OtherText());
    ViaTells(EntrySides, Both(Maybe(FileText()), OtherText()));
  }

  function DirectorySides(d: Directory): (Texts, (Layer, (Metadata, Texts))) {
    (d.extensions, (d.entries, (d.metadata, d.versions)))
  }

  function LayerText(): Layer -> string {
    MapOf(Maybe(EntryText()))
  }

  function DirectoryText(): Directory -> string {
    Via(DirectorySides, Both(Names(), Both(LayerText(), Both(MetadataText(), Names()))))
  }

  lemma DirectoryTells()
    ensures Tells(DirectoryText())
  {
    TextsTell();
    EntryTells();
    MaybeTells(EntryText());
    MapTells(Maybe(EntryText()));
    MetadataTells();
    BothTell(MetadataText(), Names());
    BothTell(LayerText(), Both(MetadataText(), Names()));
    BothTell(Names(), Both(LayerText(), Both(MetadataText(), Names())));
    ViaTells(DirectorySides, Both(Names(), Both(LayerText(), Both(MetadataText(), Names()))));
  }

  function BundleSides(b: Bundle): (Option<Directory>, Option<Entry>) {
    match b
    case Dir(directory) => (Some(directory), None)
    case Single(entry) => (None, Some(entry))
  }

  function BundleText(): Bundle -> string {
    Via(BundleSides, Both(Maybe(DirectoryText()), Maybe(EntryText())))
  }

  lemma BundleTells()
    ensures Tells(BundleText())
  {
    DirectoryTells();
    EntryTells();
    MaybeTells(DirectoryText());
    MaybeTells(EntryText());
    BothTell(Maybe(DirectoryText()), Maybe(EntryText()));
    ViaTells(BundleSides, Both(Maybe(DirectoryText()), Maybe(EntryText())));
  }

  // ---- Objects and the paths that name them -------------------------------

  type Protection = (Option<Bytes>, Bytes)

  function ProtectionText(): Protection -> string {
    Both(Maybe(Octets()), Octets())
  }

  function ObjectSides(o: Object): (Bundle, Protection) {
    (o.bundle, (o.key, o.iv))
  }

  function ObjectText(): Object -> string {
    Via(ObjectSides, Both(BundleText(), ProtectionText()))
  }

  function PathSides(p: PartPath): (string, (string, Protection)) {
    (p.contentId.hash, (p.contentId.algorithm, (p.key, p.iv)))
  }

  function PathSpelled(): PartPath -> string {
    Via(PathSides, Both(Spelled, Both(Spelled, ProtectionText())))
  }

  lemma ProtectionTells()
    ensures Tells(ProtectionText())
  {
    NumbersTell();
    MaybeTells(Octets());
    BothTell(Maybe(Octets()), Octets());
  }

  lemma ObjectTells()
    ensures Tells(ObjectText())
  {
    BundleTells();
    ProtectionTells();
    BothTell(BundleText(), ProtectionText());
    ViaTells(ObjectSides, Both(BundleText(), ProtectionText()));
  }

  lemma PathTells()
    ensures Tells(PathSpelled())
  {
    SpelledTells();
    ProtectionTells();
    BothTell(Spelled, ProtectionText());
    BothTell(Spelled, Both(Spelled, ProtectionText()));
    ViaTells(PathSides, Both(Spelled, Both(Spelled, ProtectionText())));
  }

  /** Texts told apart tell what they are texts of. */
  lemma SameText<T(!new)>(code: T -> string, x: T, y: T)
    requires Tells(code) && code(x) == code(y)
    ensures x == y
  {
    assert code(x) + [] == code(y) + [];
    ToldApart(code, x, y, [], []);
  }

  lemma BothIsLonger<S, T>(first: S -> string, second: T -> string, p: (S, T))
    ensures |Both(first, second)(p)| == |first(p.0)| + |second(p.1)|
  {
  }

  /** A bundle's text is longer than each name in it. */
  lemma NameIsShorter(o: Object, name: string)
    requires name in NamesOf(o.bundle)
    ensures |name| < |ObjectText()(o)|
  {
    var d := o.bundle.directory;
    SpelledIsLonger(name);
    EachIsLonger(Spelled, d.extensions, name);
    BothIsLonger(Names(), Both(LayerText(), Both(MetadataText(), Names())), DirectorySides(d));
    assert |DirectoryText()(d)| >= |EachOf(Spelled, d.extensions)|;
    EachIsLonger(DirectoryText(), [d], d);
    assert Listed(Some(d)) == [d];
    BothIsLonger(Maybe(DirectoryText()), Maybe(EntryText()), BundleSides(o.bundle));
    assert |BundleText()(o.bundle)| >= |EachOf(DirectoryText(), [d])|;
    BothIsLonger(BundleText(), ProtectionText(), ObjectSides(o));
  }

  /** A path's text is longer than the hash in it. */
  lemma HashIsShorter(p: PartPath)
    ensures |p.contentId.hash| < |PathSpelled()(p)|
  {
    SpelledIsLonger(p.contentId.hash);
    BothIsLonger(Spelled, Both(Spelled, ProtectionText()), PathSides(p));
  }

  // ---- The vault ----------------------------------------------------------

  /** The path a text is that of; there is only one. */
  ghost function PathOfText(text: string): (r: Result<PartPath, BundleError>)
    ensures r.Success? ==> PathSpelled()(r.value) == text
    ensures r.Failure? ==> forall p :: PathSpelled()(p) != text
  {
    if p :| PathSpelled()(p) == text then Success(p) else Failure(MalformedBundle)
  }

  lemma PathOfItsText(p: PartPath)
    ensures PathOfText(PathSpelled()(p)) == Success(p)
  {
    PathTells();
    var r := PathOfText(PathSpelled()(p));
    assert PathSpelled()(p) == PathSpelled()(p);
    SameText(PathSpelled(), r.value, p);
  }

  function AddressOf(o: Object): ContentId {
    ContentId("", ObjectText()(o))
  }

  /** Every object addressed by a text of all it holds, and named by a text of its path. */
  ghost function Spelling(): Vault {
    Vault(AddressOf, _ => seq(KEY_BYTES, _ => 0), (id: ContentId) => |id.hash|, PathOfText, PathSpelled(),
          (o: Object) => |ObjectText()(o)|, (b: Bundle) => |BundleText()(b)|, (_, _) => false,
          Hashed((_, _) => 1, _ => 0))
  }

  /** There is such a vault: all that is asked of addresses, ranks and names can be met together. */
  lemma SomeVaultIs()
    ensures IsVault(Spelling())
  {
    var v := Spelling();
    forall o, other | v.address(o) == v.address(other)
      ensures o == other
    {
      ObjectTells();
      SameText(ObjectText(), o, other);
    }
    forall p
      ensures v.parse(v.text(p)) == Success(p)
    {
      PathOfItsText(p);
    }
    forall o: Object, name | name in NamesOf(o.bundle) && v.parse(name).Success?
      ensures v.rank(v.parse(name).value.contentId) < v.rank(v.address(o))
    {
      HashIsShorter(v.parse(name).value);
      NameIsShorter(o, name);
    }
  }

  /** And such a node, whose digests tell entries apart. */
  lemma SomeNodeIs(maxObjectBytes: nat, limits: Limits, cap: nat)
    ensures IsNode(Node(Spelling(), MapOf(EntryText()), maxObjectBytes, limits, cap))
  {
    SomeVaultIs();
    EntryTells();
    MapTells(EntryText());
    forall e, f | MapOf(EntryText())(e) == MapOf(EntryText())(f)
      ensures e == f
    {
      SameText(MapOf(EntryText()), e, f);
    }
  }
}
