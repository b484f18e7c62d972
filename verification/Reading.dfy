/** What a stored bundle holds, and that a reader of real content gets exactly that. */
module Reading {
  import opened Wrappers
  import opened PartPaths
  import opened Shapes
  import opened Overlay
  import opened Reach
  import opened Meaning
  import opened Vaults

  /** Everything the bundle at `p` holds once its extensions are overlaid, tombstones kept. */
  ghost function Contents(v: Vault, p: PartPath): Layer
    requires IsVault(v)
  {
    IdealIsAcyclic(v);
    Whole(Ideal(v), RankOf(v), p)
  }

  ghost function Stack(v: Vault, names: seq<string>): Layer
    requires IsVault(v)
  {
    IdealIsAcyclic(v);
    Chain(Ideal(v), RankOf(v), names)
  }

  /** Whether everything `names` lead to is named properly and is a directory. */
  ghost predicate Followable(v: Vault, names: seq<string>) {
    && (forall name :: Listed(Ideal(v), names, name) ==> v.parse(name).Success?)
    && (forall p :: Reachable(Ideal(v), names, p) ==> HeldDirectory(Ideal(v), p))
  }

  ghost predicate ReachesWithin(v: Vault, names: seq<string>, within: set<PartPath>) {
    forall p :: Reachable(Ideal(v), names, p) ==> p in within
  }

  /** Whether a reader follows at most `most` distinct extensions from `names`. */
  ghost predicate ReachesAtMost(v: Vault, names: seq<string>, most: nat) {
    exists within :: |within| <= most && ReachesWithin(v, names, within)
  }

  ghost predicate Kept(v: Vault, sink: Sink, names: seq<string>) {
    forall p :: Reachable(Ideal(v), names, p) ==> p.contentId in sink
  }

  ghost predicate Small(v: Vault, names: seq<string>, cap: nat) {
    forall p :: Reachable(Ideal(v), names, p) && Ideal(v).load(p).Held? ==>
      v.plainBytes(Ideal(v).load(p).bundle) <= cap
  }

  // ---- Putting reach together ---------------------------------------------

  lemma {:induction false} ReachesFromMore(r: Reader, names: seq<string>, more: seq<string>, p: PartPath, steps: nat)
    requires Reaches(r, names, p, steps)
    requires forall q :: Names(r, names, q) ==> Names(r, more, q)
    ensures Reaches(r, more, p, steps)
    decreases steps
  {
    if steps > 0 {
      var q :| Reaches(r, names, q, steps - 1) && Names(r, ExtensionsOf(r, q), p);
      ReachesFromMore(r, names, more, q, steps - 1);
    }
  }

  lemma ReachableFromMore(r: Reader, names: seq<string>, more: seq<string>)
    requires forall name :: name in names ==> name in more
    ensures forall p :: Reachable(r, names, p) ==> Reachable(r, more, p)
    ensures forall name :: Listed(r, names, name) ==> Listed(r, more, name)
  {
    forall p | Reachable(r, names, p)
      ensures Reachable(r, more, p)
    {
      var steps: nat :| Reaches(r, names, p, steps);
      ReachesFromMore(r, names, more, p, steps);
    }
  }

  lemma {:induction false} ReachesFromEither(r: Reader, a: seq<string>, b: seq<string>, p: PartPath, steps: nat)
    requires Reaches(r, a + b, p, steps)
    ensures Reaches(r, a, p, steps) || Reaches(r, b, p, steps)
    decreases steps
  {
    if steps > 0 {
      var q :| Reaches(r, a + b, q, steps - 1) && Names(r, ExtensionsOf(r, q), p);
      ReachesFromEither(r, a, b, q, steps - 1);
    }
  }

  lemma ReachableFromEither(r: Reader, a: seq<string>, b: seq<string>)
    ensures forall p :: Reachable(r, a + b, p) ==> Reachable(r, a, p) || Reachable(r, b, p)
    ensures forall name :: Listed(r, a + b, name) ==> Listed(r, a, name) || Listed(r, b, name)
  {
    forall p | Reachable(r, a + b, p)
      ensures Reachable(r, a, p) || Reachable(r, b, p)
    {
      var steps: nat :| Reaches(r, a + b, p, steps);
      ReachesFromEither(r, a, b, p, steps);
    }
  }

  lemma {:induction false} ReachesThrough(r: Reader, name: string, q: PartPath, p: PartPath, steps: nat)
    requires r.parse(name) == Success(q) && Reaches(r, [name], p, steps)
    ensures p == q || Reachable(r, ExtensionsOf(r, q), p)
    decreases steps
  {
    if steps > 0 {
      var o :| Reaches(r, [name], o, steps - 1) && Names(r, ExtensionsOf(r, o), p);
      ReachesThrough(r, name, q, o, steps - 1);
      if o == q {
        assert Reaches(r, ExtensionsOf(r, q), p, 0);
      } else {
        var n: nat :| Reaches(r, ExtensionsOf(r, q), o, n);
        assert Reaches(r, ExtensionsOf(r, q), p, n + 1);
      }
    }
  }

  /** What one name leads to is the bundle it names, and what that one's extensions lead to. */
  lemma ReachableThrough(r: Reader, name: string, q: PartPath)
    requires r.parse(name) == Success(q)
    ensures forall p :: Reachable(r, [name], p) ==> p == q || Reachable(r, ExtensionsOf(r, q), p)
    ensures forall other :: Listed(r, [name], other) ==> other == name || Listed(r, ExtensionsOf(r, q), other)
  {
    forall p | Reachable(r, [name], p)
      ensures p == q || Reachable(r, ExtensionsOf(r, q), p)
    {
      var steps: nat :| Reaches(r, [name], p, steps);
      ReachesThrough(r, name, q, p, steps);
    }
  }

  // ---- Reading back -------------------------------------------------------

  /** A reader with everything at hand, none of it too large, overlays it as defined. */
  lemma ReadsBack(v: Vault, sink: Sink, cap: nat, max: nat, p: PartPath, top: Directory)
    requires IsVault(v) && Genuine(v, sink)
    requires Ideal(v).load(p) == Held(Dir(top)) && Followable(v, top.extensions)
    requires ReachesAtMost(v, top.extensions, max)
    requires Kept(v, sink, top.extensions) && Small(v, top.extensions, cap)
    ensures Resolved(ReaderOf(v, sink, cap), top, max).answer == Overlaid(Present(Contents(v, p)))
  {
    var r := ReaderOf(v, sink, cap);
    var s := Ideal(v);
    var names := top.extensions;
    forall q | Reachable(s, names, q)
      ensures HeldDirectory(r, q) && r.load(q) == s.load(q)
    {
      HeldAsIdeal(v, sink, cap, q);
    }
    assert ReadsAll(v, r, names);
    RealReach(v, sink, cap, names);
    var within :| |within| <= max && ReachesWithin(v, names, within);
    OverlaysWhatItCan(r, top, max, within);
    RealIsAcyclic(v, sink, cap);
    IdealIsAcyclic(v);
    ResolvedMeans(r, RankOf(v), top, max);
    assert LeadsWithin(s, names, names) by {
      forall q | Names(s, names, q)
        ensures Reachable(s, names, q)
      {
        assert Reaches(s, names, q, 0);
      }
    }
    SameChain(v, r, RankOf(v), names, names);
    assert ExtensionsOf(s, p) == names && EntriesOf(s, p) == top.entries;
  }

  lemma HeldAsIdeal(v: Vault, sink: Sink, cap: nat, q: PartPath)
    requires IsVault(v) && Genuine(v, sink)
    requires q.contentId in sink && HeldDirectory(Ideal(v), q)
    requires v.plainBytes(Ideal(v).load(q).bundle) <= cap
    ensures HeldDirectory(ReaderOf(v, sink, cap), q) && ReaderOf(v, sink, cap).load(q) == Ideal(v).load(q)
  {
    var o := Named(v, q).value;
    assert IsAt(v, o, q);
    assert v.address(sink[q.contentId]) == v.address(o);
  }

  /** What a reader of real content comes to, the ideal one comes to too. */
  lemma RealReach(v: Vault, sink: Sink, cap: nat, names: seq<string>)
    requires IsVault(v) && Genuine(v, sink)
    ensures forall p :: Reachable(ReaderOf(v, sink, cap), names, p) ==> Reachable(Ideal(v), names, p)
    ensures forall name :: Listed(ReaderOf(v, sink, cap), names, name) ==> Listed(Ideal(v), names, name)
  {
    var r, s := ReaderOf(v, sink, cap), Ideal(v);
    RealIsNarrower(v, sink, cap);
    forall p | Reachable(r, names, p)
      ensures Reachable(s, names, p)
    {
      var steps: nat :| Reaches(r, names, p, steps);
      ReachesMore(r, s, names, p, steps);
    }
  }

  /** A reader that overlays a directory at all overlays what it holds, and read all of it. */
  lemma OverlaidIsContents(v: Vault, sink: Sink, cap: nat, max: nat, p: PartPath, top: Directory)
    requires IsVault(v) && Genuine(v, sink)
    requires Ideal(v).load(p) == Held(Dir(top))
    requires Resolved(ReaderOf(v, sink, cap), top, max).answer.Overlaid?
    ensures Resolved(ReaderOf(v, sink, cap), top, max).answer == Overlaid(Present(Contents(v, p)))
    ensures Followable(v, top.extensions) && Small(v, top.extensions, cap) && Kept(v, sink, top.extensions)
    ensures ReachesAtMost(v, top.extensions, |Resolved(ReaderOf(v, sink, cap), top, max).loads|)
  {
    var r, s, names := ReaderOf(v, sink, cap), Ideal(v), top.extensions;
    var loads := Resolved(r, top, max).loads;
    ResolvedAnswers(r, top, max);
    forall q | q in loads
      ensures HeldDirectory(r, q) && r.load(q) == s.load(q) && q.contentId in sink
    {
      assert !Lacks(r, q, q.contentId);
      ReadsIdeally(v, sink, cap, q);
    }
    IdealReachIsRead(v, r, names, loads);
    assert ReadsAll(v, r, names);
    var within := set q | q in loads;
    LoadsWithin(loads);
    assert ReachesWithin(v, names, within);
    SameListed(r, s, names, loads);
    ReadsBack(v, sink, cap, |loads|, p, top);
    RealIsAcyclic(v, sink, cap);
    IdealIsAcyclic(v);
    ResolvedMeans(r, RankOf(v), top, max);
    ResolvedMeans(r, RankOf(v), top, |loads|);
  }

  lemma {:induction false} LoadsWithin(loads: seq<PartPath>)
    ensures |(set q | q in loads)| <= |loads|
  {
    if loads != [] {
      LoadsWithin(loads[1..]);
      assert (set q | q in loads) == {loads[0]} + (set q | q in loads[1..]);
    }
  }

  lemma {:induction false} IdealStepIsRead(v: Vault, r: Reader, names: seq<string>, loads: seq<PartPath>,
                                           p: PartPath, steps: nat)
    requires r.parse == v.parse && ReachesExactly(r, names, loads)
    requires forall q :: q in loads ==> r.load(q) == Ideal(v).load(q)
    requires Reaches(Ideal(v), names, p, steps)
    ensures p in loads
    decreases steps
  {
    var s := Ideal(v);
    if steps > 0 {
      var q :| Reaches(s, names, q, steps - 1) && Names(s, ExtensionsOf(s, q), p);
      IdealStepIsRead(v, r, names, loads, q, steps - 1);
      assert Names(r, ExtensionsOf(r, q), p);
      var n: nat :| Reaches(r, names, q, n);
      assert Reaches(r, names, p, n + 1);
    } else {
      assert Reaches(r, names, p, 0);
    }
  }

  lemma IdealReachIsRead(v: Vault, r: Reader, names: seq<string>, loads: seq<PartPath>)
    requires r.parse == v.parse && ReachesExactly(r, names, loads)
    requires forall q :: q in loads ==> r.load(q) == Ideal(v).load(q)
    ensures forall p :: Reachable(Ideal(v), names, p) ==> p in loads
  {
    forall p | Reachable(Ideal(v), names, p)
      ensures p in loads
    {
      var steps: nat :| Reaches(Ideal(v), names, p, steps);
      IdealStepIsRead(v, r, names, loads, p, steps);
    }
  }

  lemma SameListed(r: Reader, s: Reader, names: seq<string>, loads: seq<PartPath>)
    requires ReachesExactly(r, names, loads)
    requires forall p :: Reachable(s, names, p) ==> p in loads && r.load(p) == s.load(p)
    ensures forall name :: Listed(s, names, name) ==> Listed(r, names, name)
  {
  }
}
