/**
 Content addressing, with the hash, the compression and the cipher left abstract.

 A vault says where every object would be kept. Its addresses collide for no two objects,
 and an object is addressed only once everything it names has been, which its rank records.
 */
module Vaults {
  import opened Wrappers
  import opened Hex
  import opened PartPaths
  import opened Shapes
  import opened Overlay
  import opened Reach
  import opened Meaning
  import opened Splitting

  /** What is stored: a bundle, encrypted under `key` and `iv` if there is a key. */
  datatype Object = Object(bundle: Bundle, key: Option<Bytes>, iv: Bytes)

  /** The content held, by identifier. */
  type Sink = map<ContentId, Object>

  /**
   `storedBytes` is an object's size as stored, and `plainBytes` a bundle's once read.
   `refused` says that protecting a bundle already fails, whether or not it is held.
   */
  datatype Vault = Vault(
    address: Object -> ContentId,
    keyOf: Bundle -> Bytes,
    rank: ContentId -> nat,
    parse: string -> Result<PartPath, BundleError>,
    text: PartPath -> string,
    storedBytes: Object -> nat,
    plainBytes: Bundle -> nat,
    refused: (Bundle, nat) -> bool,
    sizing: Sizing)

  /** A path whose text says all of it. */
  predicate Nameable(p: PartPath) {
    match p.key
    case None => p.iv == DEFAULT_IV
    case Some(key) => |key| == KEY_BYTES && |p.iv| == BLOCK_BYTES
  }

  function NamesOf(bundle: Bundle): seq<string> {
    match bundle
    case Single(_) => []
    case Dir(directory) => directory.extensions
  }

  ghost predicate IsVault(v: Vault) {
    && (forall o, o' :: v.address(o) == v.address(o') ==> o == o')
    && (forall bundle :: |v.keyOf(bundle)| == KEY_BYTES)
    && (forall p :: Nameable(p) ==> v.parse(v.text(p)) == Success(p))
    && (forall o: Object, name :: name in NamesOf(o.bundle) && v.parse(name).Success? ==>
          v.rank(v.parse(name).value.contentId) < v.rank(v.address(o)))
  }

  function PathOf(v: Vault, o: Object): PartPath {
    PartPath(v.address(o), o.key, o.iv)
  }

  predicate Genuine(v: Vault, sink: Sink) {
    forall id :: id in sink ==> v.address(sink[id]) == id
  }

  predicate Opens(o: Object, p: PartPath) {
    o.key == p.key && o.iv == p.iv
  }

  /** What reading `o` as `p` gives, bundles over `cap` bytes being refused. */
  function Opened(v: Vault, o: Object, p: PartPath, cap: nat): Loaded {
    if !Opens(o, p) then Refused(if p.key.None? then MalformedBundle else UnverifiedContent)
    else if v.plainBytes(o.bundle) > cap then Refused(UnsupportedBundle)
    else Held(o.bundle)
  }

  /** A reader of what `sink` holds. */
  function ReaderOf(v: Vault, sink: Sink, cap: nat): Reader {
    Reader(v.parse, (p: PartPath) => if p.contentId in sink then Opened(v, sink[p.contentId], p, cap) else Absent([p.contentId]))
  }

  ghost predicate IsAt(v: Vault, o: Object, p: PartPath) {
    v.address(o) == p.contentId && Opens(o, p)
  }

  /** The object a path names, held anywhere or not. */
  ghost function Named(v: Vault, p: PartPath): Option<Object> {
    if exists o :: IsAt(v, o, p) then
      var o :| IsAt(v, o, p);
      Some(o)
    else None
  }

  /** A reader for whom everything is held, and nothing is too large. */
  ghost function Ideal(v: Vault): Reader {
    Reader(v.parse, (p: PartPath) => match Named(v, p) case Some(o) => Held(o.bundle) case None => Absent([p.contentId]))
  }

  ghost function RankOf(v: Vault): Rank {
    (p: PartPath) => v.rank(p.contentId)
  }

  lemma NamedIs(v: Vault, o: Object, p: PartPath)
    requires IsVault(v) && IsAt(v, o, p)
    ensures Named(v, p) == Some(o) && Ideal(v).load(p) == Held(o.bundle)
  {
  }

  lemma {:induction false} CeilingWithin(r: Reader, rank: Rank, names: seq<string>, bound: nat)
    requires forall name :: name in names && r.parse(name).Success? ==> rank(r.parse(name).value) < bound
    ensures Ceiling(r, rank, names) <= bound
  {
    if names != [] {
      CeilingWithin(r, rank, names[1..], bound);
      assert names[0] in names;
    }
  }

  lemma IdealIsAcyclic(v: Vault)
    requires IsVault(v)
    ensures Acyclic(Ideal(v), RankOf(v))
  {
    var r, rank := Ideal(v), RankOf(v);
    forall p
      ensures Ceiling(r, rank, ExtensionsOf(r, p)) <= rank(p)
    {
      if HeldDirectory(r, p) {
        var o := Named(v, p).value;
        assert IsAt(v, o, p);
        assert forall name :: name in ExtensionsOf(r, p) ==> name in NamesOf(o.bundle);
      }
      CeilingWithin(r, rank, ExtensionsOf(r, p), rank(p));
    }
  }

  /** A reader of real content reads what the ideal one does, or nothing. */
  lemma ReadsIdeally(v: Vault, sink: Sink, cap: nat, p: PartPath)
    requires IsVault(v) && Genuine(v, sink)
    ensures ReaderOf(v, sink, cap).load(p).Held? ==> Ideal(v).load(p) == ReaderOf(v, sink, cap).load(p)
    ensures ExtensionsOf(ReaderOf(v, sink, cap), p) != [] ==>
              ExtensionsOf(ReaderOf(v, sink, cap), p) == ExtensionsOf(Ideal(v), p)
  {
    if ReaderOf(v, sink, cap).load(p).Held? {
      NamedIs(v, sink[p.contentId], p);
    }
  }

  lemma RealIsAcyclic(v: Vault, sink: Sink, cap: nat)
    requires IsVault(v) && Genuine(v, sink)
    ensures Acyclic(ReaderOf(v, sink, cap), RankOf(v))
  {
    IdealIsAcyclic(v);
    var r, rank := ReaderOf(v, sink, cap), RankOf(v);
    forall p
      ensures Ceiling(r, rank, ExtensionsOf(r, p)) <= rank(p)
    {
      ReadsIdeally(v, sink, cap, p);
      SameCeiling(r, Ideal(v), rank, ExtensionsOf(r, p));
    }
  }

  lemma {:induction false} SameCeiling(r: Reader, s: Reader, rank: Rank, names: seq<string>)
    requires r.parse == s.parse
    ensures Ceiling(r, rank, names) == Ceiling(s, rank, names)
  {
    if names != [] {
      SameCeiling(r, s, rank, names[1..]);
    }
  }

  // ---- Reading what is reachable ------------------------------------------

  /** Whether all that `r` follows, `s` follows too. */
  ghost predicate Narrower(r: Reader, s: Reader) {
    r.parse == s.parse && forall p, name :: name in ExtensionsOf(r, p) ==> name in ExtensionsOf(s, p)
  }

  lemma RealIsNarrower(v: Vault, sink: Sink, cap: nat)
    requires IsVault(v) && Genuine(v, sink)
    ensures Narrower(ReaderOf(v, sink, cap), Ideal(v))
  {
    forall p, name | name in ExtensionsOf(ReaderOf(v, sink, cap), p)
      ensures name in ExtensionsOf(Ideal(v), p)
    {
      ReadsIdeally(v, sink, cap, p);
    }
  }

  lemma {:induction false} ReachesMore(r: Reader, s: Reader, top: seq<string>, p: PartPath, steps: nat)
    requires Narrower(r, s) && Reaches(r, top, p, steps)
    ensures Reaches(s, top, p, steps)
    decreases steps
  {
    if steps > 0 {
      var q :| Reaches(r, top, q, steps - 1) && Names(r, ExtensionsOf(r, q), p);
      ReachesMore(r, s, top, q, steps - 1);
      assert Names(s, ExtensionsOf(s, q), p);
    } else {
      assert Names(s, top, p);
    }
  }

  /** Whether `r` reads everything reachable from `top` as the ideal reader does. */
  ghost predicate ReadsAll(v: Vault, r: Reader, top: seq<string>) {
    forall p :: Reachable(Ideal(v), top, p) ==> HeldDirectory(r, p) && r.load(p) == Ideal(v).load(p)
  }

  /** The names leading from `names`, and from what they reach, are all among those from `top`. */
  ghost predicate LeadsWithin(r: Reader, top: seq<string>, names: seq<string>) {
    forall p :: Names(r, names, p) ==> Reachable(r, top, p)
  }

  lemma ExtensionsLeadWithin(r: Reader, top: seq<string>, p: PartPath)
    requires Reachable(r, top, p)
    ensures LeadsWithin(r, top, ExtensionsOf(r, p))
  {
    var steps: nat :| Reaches(r, top, p, steps);
    forall q | Names(r, ExtensionsOf(r, p), q)
      ensures Reachable(r, top, q)
    {
      assert Reaches(r, top, q, steps + 1);
    }
  }

  /** Readers that agree on everything reachable overlay it alike. */
  lemma {:induction false} SameChain(v: Vault, r: Reader, rank: Rank, top: seq<string>, names: seq<string>)
    requires r.parse == v.parse && ReadsAll(v, r, top)
    requires Acyclic(r, rank) && Acyclic(Ideal(v), rank)
    requires LeadsWithin(Ideal(v), top, names)
    ensures Chain(r, rank, names) == Chain(Ideal(v), rank, names)
    decreases Ceiling(r, rank, names), 0, |names|
  {
    var s := Ideal(v);
    if names != [] {
      assert LeadsWithin(s, top, names[1..]) by {
        assert forall p :: Names(s, names[1..], p) ==> Names(s, names, p);
      }
      SameChain(v, r, rank, top, names[1..]);
      if r.parse(names[0]).Success? {
        var p := r.parse(names[0]).value;
        assert Names(s, names, p);
        ExtensionsLeadWithin(s, top, p);
        SameChain(v, r, rank, top, ExtensionsOf(r, p));
      }
    }
  }
}
