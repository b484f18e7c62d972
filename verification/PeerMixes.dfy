/** Choosing which peers to dial, for a spread of them across the identifiers. */
module PeerMixes {
  import opened Wrappers
  import opened Hex
  import opened PartPaths
  import opened Buckets

  datatype Candidate = Candidate(endpoints: seq<string>, nodeId: Option<ContentId>)

  datatype Settings = Settings(
    minOutgoing: nat,
    bucketBits: nat,
    minNeighborhood: nat,
    neighborhoodBits: nat)

  /** Where a node has its place in one set of the mix, if it has one. */
  type Place = ContentId -> Option<nat>

  function BucketAt(id: ContentId, settings: Settings): Option<nat> {
    if AllDigits(id.hash) && settings.bucketBits <= 4 * |id.hash| then Some(Bucket(id.hash, settings.bucketBits))
    else None
  }

  /** The bucket of the bits after those a neighbor shares with this node. */
  function NeighborhoodAt(id: ContentId, settings: Settings, own: ContentId): Option<nat> {
    if !HasBits(id, settings) || BucketAt(id, settings) != BucketAt(own, settings) then None
    else Some(Low(Bucket(id.hash, settings.bucketBits + settings.neighborhoodBits), settings.neighborhoodBits))
  }

  function BucketOf(settings: Settings): Place {
    (id: ContentId) => BucketAt(id, settings)
  }

  function NeighborhoodOf(settings: Settings, own: ContentId): Place {
    (id: ContentId) => NeighborhoodAt(id, settings, own)
  }

  /** Whether a node's hash is long enough to have a place in either set. */
  predicate HasBits(id: ContentId, settings: Settings) {
    AllDigits(id.hash) && settings.bucketBits + settings.neighborhoodBits <= 4 * |id.hash|
  }

  /** A node is a neighbor if it shares this node's first bits; its bucket adds the bits that follow to those. */
  lemma NeighborsPlace(settings: Settings, own: ContentId, id: ContentId)
    requires HasBits(own, settings) && HasBits(id, settings)
    ensures var bits, place := settings.bucketBits + settings.neighborhoodBits, NeighborhoodOf(settings, own)(id);
            && (place.Some? <==> SameFirst(BitsOf(id.hash), BitsOf(own.hash), settings.bucketBits))
            && (place.Some? ==>
                  && place.value == Low(Bucket(id.hash, bits), settings.neighborhoodBits) < Pow2(settings.neighborhoodBits)
                  && Bucket(id.hash, bits) ==
                     Bucket(own.hash, settings.bucketBits) * Pow2(settings.neighborhoodBits) + place.value)
  {
    BucketDivides(id.hash, settings.bucketBits, settings.neighborhoodBits);
    BucketIsBits(id.hash, own.hash, settings.bucketBits);
  }

  /** Neighborhood buckets divide this node's own: neighbors share one exactly if they share that many more bits. */
  lemma NeighborhoodsPartition(settings: Settings, own: ContentId, a: ContentId, b: ContentId)
    requires HasBits(own, settings) && HasBits(a, settings) && HasBits(b, settings)
    requires NeighborhoodOf(settings, own)(a).Some? && NeighborhoodOf(settings, own)(b).Some?
    ensures NeighborhoodOf(settings, own)(a) == NeighborhoodOf(settings, own)(b) <==>
            SameFirst(BitsOf(a.hash), BitsOf(b.hash), settings.bucketBits + settings.neighborhoodBits)
  {
    SameBucketsPart(a.hash, b.hash, settings.bucketBits, settings.neighborhoodBits);
  }

  // ---- One set of the mix -------------------------------------------------

  /** Those chosen, and the places covered and the nodes taken after. */
  datatype Spread = Spread(chosen: seq<Candidate>, covered: set<nat>, taken: set<ContentId>)

  /** Whether `c` is the best for a place not covered yet. */
  predicate Fills(c: Candidate, place: Place, covered: set<nat>, taken: set<ContentId>) {
    c.nodeId.Some? && c.nodeId.value !in taken && place(c.nodeId.value).Some? && place(c.nodeId.value).value !in covered
  }

  function SpreadOver(candidates: seq<Candidate>, place: Place, covered: set<nat>, wanted: nat, taken: set<ContentId>)
    : Spread
  {
    if candidates == [] || |covered| >= wanted then Spread([], covered, taken)
    else
      var c := candidates[0];
      if !Fills(c, place, covered, taken) then SpreadOver(candidates[1..], place, covered, wanted, taken)
      else
        var rest := SpreadOver(candidates[1..], place, covered + {place(c.nodeId.value).value}, wanted,
                               taken + {c.nodeId.value});
        rest.(chosen := [c] + rest.chosen)
  }

  /** The nodes of those chosen. */
  function NodesOf(chosen: seq<Candidate>): set<ContentId> {
    set i | 0 <= i < |chosen| && chosen[i].nodeId.Some? :: chosen[i].nodeId.value
  }

  /** Known nodes, each once, and none of `taken`. */
  predicate Fresh(chosen: seq<Candidate>, taken: set<ContentId>) {
    && (forall i :: 0 <= i < |chosen| && chosen[i].nodeId.Some? ==> chosen[i].nodeId.value !in taken)
    && (forall i, j :: 0 <= i < j < |chosen| && chosen[i].nodeId.Some? ==> chosen[i].nodeId != chosen[j].nodeId)
  }

  /** Each candidate whose node is known has been taken, has no place, or its place is covered. */
  predicate AllPlaced(candidates: seq<Candidate>, place: Place, covered: set<nat>, taken: set<ContentId>) {
    forall i :: 0 <= i < |candidates| ==> !Fills(candidates[i], place, covered, taken)
  }

  /** Those chosen each fill one more place, until enough are covered. */
  lemma {:induction false} SpreadCounts(candidates: seq<Candidate>, place: Place, covered: set<nat>, wanted: nat,
                                        taken: set<ContentId>)
    ensures var r := SpreadOver(candidates, place, covered, wanted, taken);
            && covered <= r.covered && taken <= r.taken
            && |r.covered| == |covered| + |r.chosen| && |r.taken| == |taken| + |r.chosen|
            && (|covered| <= wanted ==> |r.covered| <= wanted) && (|covered| >= wanted ==> r.chosen == [])
    decreases |candidates|
  {
    if candidates != [] && |covered| < wanted {
      var c, rest := candidates[0], candidates[1..];
      if Fills(c, place, covered, taken) {
        var id := c.nodeId.value;
        assert |covered + {place(id).value}| == |covered| + 1 && |taken + {id}| == |taken| + 1;
        SpreadCounts(rest, place, covered + {place(id).value}, wanted, taken + {id});
      } else {
        SpreadCounts(rest, place, covered, wanted, taken);
      }
    }
  }

  /** Those chosen are candidates, new and distinct, and now taken. */
  lemma {:induction false} SpreadIsFresh(candidates: seq<Candidate>, place: Place, covered: set<nat>, wanted: nat,
                                         taken: set<ContentId>)
    ensures var r := SpreadOver(candidates, place, covered, wanted, taken);
            && Fresh(r.chosen, taken) && r.taken == taken + NodesOf(r.chosen)
            && (forall i :: 0 <= i < |r.chosen| ==> r.chosen[i].nodeId.Some? && r.chosen[i] in candidates)
    decreases |candidates|
  {
    if candidates != [] && |covered| < wanted {
      var c, rest := candidates[0], candidates[1..];
      if Fills(c, place, covered, taken) {
        var more, also := covered + {place(c.nodeId.value).value}, taken + {c.nodeId.value};
        SpreadIsFresh(rest, place, more, wanted, also);
        OneMoreFresh(c, SpreadOver(rest, place, more, wanted, also).chosen, taken);
      } else {
        SpreadIsFresh(rest, place, covered, wanted, taken);
      }
    }
  }

  /** Either enough places are covered, or no candidate is left that would cover another. */
  lemma {:induction false} SpreadFills(candidates: seq<Candidate>, place: Place, covered: set<nat>, wanted: nat,
                                       taken: set<ContentId>)
    ensures var r := SpreadOver(candidates, place, covered, wanted, taken);
            |r.covered| >= wanted || AllPlaced(candidates, place, r.covered, r.taken)
    decreases |candidates|
  {
    if candidates != [] && |covered| < wanted {
      var c, rest := candidates[0], candidates[1..];
      var more := if Fills(c, place, covered, taken) then covered + {place(c.nodeId.value).value} else covered;
      var also := if Fills(c, place, covered, taken) then taken + {c.nodeId.value} else taken;
      var r := SpreadOver(rest, place, more, wanted, also);
      SpreadFills(rest, place, more, wanted, also);
      SpreadCounts(rest, place, more, wanted, also);
      NotFilledLater(candidates, place, more, also, r.covered, r.taken);
    }
  }

  /** What fills no place fills none once more are covered and taken. */
  lemma NotFilledLater(candidates: seq<Candidate>, place: Place, covered: set<nat>, taken: set<ContentId>,
                       moreCovered: set<nat>, moreTaken: set<ContentId>)
    requires candidates != [] && !Fills(candidates[0], place, covered, taken)
    requires covered <= moreCovered && taken <= moreTaken
    ensures AllPlaced(candidates[1..], place, moreCovered, moreTaken) ==>
              AllPlaced(candidates, place, moreCovered, moreTaken)
  {
    assert forall i :: 0 < i < |candidates| ==> candidates[i] == candidates[1..][i - 1];
  }

  lemma OneMoreFresh(c: Candidate, chosen: seq<Candidate>, taken: set<ContentId>)
    requires c.nodeId.Some? && c.nodeId.value !in taken && Fresh(chosen, taken + {c.nodeId.value})
    ensures Fresh([c] + chosen, taken)
    ensures NodesOf([c] + chosen) == {c.nodeId.value} + NodesOf(chosen)
  {
    var all := [c] + chosen;
    forall i, j | 0 <= i < j < |all| && all[i].nodeId.Some?
      ensures all[i].nodeId != all[j].nodeId
    {
      if i > 0 {
        assert all[i] == chosen[i - 1] && all[j] == chosen[j - 1];
      } else if all[j].nodeId.Some? {
        assert all[j] == chosen[j - 1];
      }
    }
    forall id | id in NodesOf(chosen) ensures id in NodesOf(all) {
      var i :| 0 <= i < |chosen| && chosen[i].nodeId.Some? && chosen[i].nodeId.value == id;
      assert all[i + 1] == chosen[i];
    }
    assert all[0] == c;
  }

  /** Each chosen is the best there was for its place. */
  predicate IsBest(candidates: seq<Candidate>, c: Candidate, place: Place, taken: set<ContentId>) {
    exists k :: 0 <= k < |candidates| && candidates[k] == c &&
                forall j :: 0 <= j < k ==> PassedFor(candidates[j], c, place, taken)
  }

  predicate PassedFor(other: Candidate, c: Candidate, place: Place, taken: set<ContentId>)
  {
    && c.nodeId.Some?
    && (other.nodeId.Some? && place(other.nodeId.value) == place(c.nodeId.value) ==> other.nodeId.value in taken)
  }

  lemma {:induction false} SpreadTakesBest(candidates: seq<Candidate>, place: Place, covered: set<nat>, wanted: nat,
                                           taken: set<ContentId>, c: Candidate)
    requires c in SpreadOver(candidates, place, covered, wanted, taken).chosen
    ensures c.nodeId.Some? && place(c.nodeId.value).Some? && place(c.nodeId.value).value !in covered
    ensures IsBest(candidates, c, place, taken)
    decreases |candidates|
  {
    var first, rest := candidates[0], candidates[1..];
    if !Fills(first, place, covered, taken) {
      SpreadTakesBest(rest, place, covered, wanted, taken, c);
      BestBehind(candidates, c, place, taken, taken);
    } else {
      var id := first.nodeId.value;
      if c == first {
        assert candidates[0] == c;
      } else {
        SpreadTakesBest(rest, place, covered + {place(id).value}, wanted, taken + {id}, c);
        BestBehind(candidates, c, place, taken, taken + {id});
      }
    }
  }

  lemma BestBehind(candidates: seq<Candidate>, c: Candidate, place: Place, taken: set<ContentId>, also: set<ContentId>)
    requires candidates != [] && c.nodeId.Some? && IsBest(candidates[1..], c, place, also)
    requires PassedFor(candidates[0], c, place, taken)
    requires also == taken || (candidates[0].nodeId.Some? && also == taken + {candidates[0].nodeId.value})
    ensures IsBest(candidates, c, place, taken)
  {
    var rest := candidates[1..];
    var k :| 0 <= k < |rest| && rest[k] == c && forall j :: 0 <= j < k ==> PassedFor(rest[j], c, place, also);
    assert candidates[k + 1] == c;
    forall j | 0 <= j < k + 1 ensures PassedFor(candidates[j], c, place, taken) {
      if j > 0 {
        assert candidates[j] == rest[j - 1];
      }
    }
  }

  // ---- The whole mix ------------------------------------------------------

  /** The nodes known to be connected, or being connected to. */
  function Known(connected: seq<Option<ContentId>>): set<ContentId> {
    set i | 0 <= i < |connected| && connected[i].Some? :: connected[i].value
  }

  function Neighbors(nodes: set<ContentId>, settings: Settings, own: ContentId): set<ContentId> {
    set id | id in nodes && NeighborhoodOf(settings, own)(id).Some?
  }

  function PlacesOf(nodes: set<ContentId>, place: Place): set<nat> {
    set id | id in nodes && place(id).Some? :: place(id).value
  }

  datatype Covered = Covered(buckets: set<nat>, neighborhood: set<nat>)

  /**
   The buckets and the neighborhood buckets the nodes cover. This node's own bucket is
   covered only by a neighbor the second set has no use for.
   */
  function CoveredBy(nodes: set<ContentId>, settings: Settings, own: ContentId): Covered {
    var neighbors := Neighbors(nodes, settings, own);
    var neighborhood := PlacesOf(nodes, NeighborhoodOf(settings, own));
    var ownBucket := BucketOf(settings)(own);
    var buckets := PlacesOf(nodes, BucketOf(settings)) - (if ownBucket.Some? then {ownBucket.value} else {});
    var spare := |neighbors| > if |neighborhood| < settings.minNeighborhood then |neighborhood| else settings.minNeighborhood;
    Covered(if spare && ownBucket.Some? then buckets + {ownBucket.value} else buckets, neighborhood)
  }

  /** The rest of the mix: the best candidates left, anywhere, until it is as large as it aims to be. */
  function FilledUp(candidates: seq<Candidate>, chosen: seq<Candidate>, connected: nat, size: nat, taken: set<ContentId>)
    : seq<Candidate>
    decreases |candidates|
  {
    if candidates == [] || connected + |chosen| >= size then chosen
    else
      var c, rest := candidates[0], candidates[1..];
      if c in chosen || (c.nodeId.Some? && c.nodeId.value in taken) then FilledUp(rest, chosen, connected, size, taken)
      else
        FilledUp(rest, chosen + [c], connected, size, if c.nodeId.Some? then taken + {c.nodeId.value} else taken)
  }

  function MixSize(settings: Settings): nat {
    settings.minOutgoing + settings.minNeighborhood
  }

  datatype Mix = Mix(first: Spread, second: Spread, chosen: seq<Candidate>)

  /** Both sets filled, the first before the second, and the rest of the mix. */
  function Mixed(candidates: seq<Candidate>, connected: nat, settings: Settings, bucket: Place, neighborhood: Place,
                 covered: Covered, taken: set<ContentId>): Mix
  {
    var first := SpreadOver(candidates, bucket, covered.buckets, settings.minOutgoing, taken);
    var second := SpreadOver(candidates, neighborhood, covered.neighborhood, settings.minNeighborhood, first.taken);
    Mix(first, second,
        FilledUp(candidates, first.chosen + second.chosen, connected, MixSize(settings), second.taken))
  }

  function Choosing(candidates: seq<Candidate>, connected: seq<Option<ContentId>>, settings: Settings, own: ContentId): Mix {
    Mixed(candidates, |connected|, settings, BucketOf(settings), NeighborhoodOf(settings, own),
          CoveredBy(Known(connected), settings, own), Known(connected))
  }

  // ---- Each peer fills one place ------------------------------------------

  function Clamped(neighborhood: set<nat>, settings: Settings): nat {
    if |neighborhood| < settings.minNeighborhood then |neighborhood| else settings.minNeighborhood
  }

  lemma {:induction false} PlacesAreNoMore(nodes: set<ContentId>, place: Place)
    ensures |PlacesOf(nodes, place)| <= |nodes|
    decreases |nodes|
  {
    if nodes != {} {
      var id :| id in nodes;
      var rest := nodes - {id};
      PlacesAreNoMore(rest, place);
      if place(id).Some? {
        assert PlacesOf(nodes, place) == PlacesOf(rest, place) + {place(id).value};
      } else {
        assert PlacesOf(nodes, place) == PlacesOf(rest, place);
      }
    }
  }

  /**
   Whether each node has a place no other has, neighbors in the second set and the rest in the
   first, and there are more neighbors than the second set wants.
   */
  predicate EachAlone(nodes: set<ContentId>, settings: Settings, own: ContentId) {
    var neighbors := Neighbors(nodes, settings, own);
    && |PlacesOf(nodes, NeighborhoodOf(settings, own))| == |neighbors| > settings.minNeighborhood
    && |PlacesOf(nodes - neighbors, BucketOf(settings))| == |nodes - neighbors|
  }

  /**
   The places covered are no more than the nodes that cover them, since each covers one at
   most, but where each is alone in its own: one more is then counted, this node's own bucket,
   for a neighbor past those wanted that covers its neighborhood bucket as well. Of the
   neighborhood buckets wanted alone, they never are.
   */
  lemma CoveredIsNoMore(nodes: set<ContentId>, settings: Settings, own: ContentId)
    requires HasBits(own, settings) && forall id :: id in nodes ==> HasBits(id, settings)
    ensures var covered := CoveredBy(nodes, settings, own);
            && |covered.buckets| + |covered.neighborhood| <= |nodes| + 1
            && (|covered.buckets| + |covered.neighborhood| > |nodes| <==> EachAlone(nodes, settings, own))
            && |covered.buckets| + Clamped(covered.neighborhood, settings) <= |nodes|
  {
    var neighbors := Neighbors(nodes, settings, own);
    var neighborhood := PlacesOf(nodes, NeighborhoodOf(settings, own));
    var buckets := PlacesOf(nodes - neighbors, BucketOf(settings));
    CoveredCounts(nodes, settings, own, neighbors, neighborhood, buckets);
  }

  lemma CoveredCounts(nodes: set<ContentId>, settings: Settings, own: ContentId, neighbors: set<ContentId>,
                      neighborhood: set<nat>, buckets: set<nat>)
    requires HasBits(own, settings) && forall id :: id in nodes ==> HasBits(id, settings)
    requires neighbors == Neighbors(nodes, settings, own)
    requires neighborhood == PlacesOf(nodes, NeighborhoodOf(settings, own))
    requires buckets == PlacesOf(nodes - neighbors, BucketOf(settings))
    ensures |nodes| == |neighbors| + |nodes - neighbors|
    ensures |neighborhood| <= |neighbors| && |buckets| <= |nodes - neighbors|
    ensures var covered := CoveredBy(nodes, settings, own);
            && covered.neighborhood == neighborhood
            && |covered.buckets| == |buckets| + if |neighbors| > Clamped(neighborhood, settings) then 1 else 0
  {
    NeighborsHold(nodes, settings, own);
    PlacesAreNoMore(neighbors, NeighborhoodOf(settings, own));
    OutsideNeighbors(nodes, settings, own);
    PlacesAreNoMore(nodes - neighbors, BucketOf(settings));
    CoveredIs(nodes, settings, own, buckets, BucketOf(settings)(own).value);
  }

  lemma NeighborsHold(nodes: set<ContentId>, settings: Settings, own: ContentId)
    ensures var neighbors, place := Neighbors(nodes, settings, own), NeighborhoodOf(settings, own);
            |nodes| == |neighbors| + |nodes - neighbors| && PlacesOf(nodes, place) == PlacesOf(neighbors, place)
  {
    var neighbors := Neighbors(nodes, settings, own);
    assert nodes == neighbors + (nodes - neighbors);
  }

  lemma CoveredIs(nodes: set<ContentId>, settings: Settings, own: ContentId, buckets: set<nat>, ownBucket: nat)
    requires BucketOf(settings)(own) == Some(ownBucket)
    requires buckets == PlacesOf(nodes, BucketOf(settings)) - {ownBucket}
    ensures var covered, neighbors := CoveredBy(nodes, settings, own), Neighbors(nodes, settings, own);
            && covered.neighborhood == PlacesOf(nodes, NeighborhoodOf(settings, own))
            && covered.buckets - {ownBucket} == buckets
            && (ownBucket in covered.buckets <==> |neighbors| > Clamped(covered.neighborhood, settings))
            && |covered.buckets| == |buckets| + if |neighbors| > Clamped(covered.neighborhood, settings) then 1 else 0
  {
  }

  /** Every bucket but this node's own is that of a node that is no neighbor. */
  lemma OutsideNeighbors(nodes: set<ContentId>, settings: Settings, own: ContentId)
    requires HasBits(own, settings) && forall id :: id in nodes ==> HasBits(id, settings)
    ensures BucketOf(settings)(own).Some?
    ensures PlacesOf(nodes, BucketOf(settings)) - {BucketOf(settings)(own).value} ==
            PlacesOf(nodes - Neighbors(nodes, settings, own), BucketOf(settings))
  {
    var place, ownBucket := BucketOf(settings), BucketOf(settings)(own).value;
    forall b | b in PlacesOf(nodes, place) - {ownBucket}
      ensures b in PlacesOf(nodes - Neighbors(nodes, settings, own), place)
    {
      var id :| id in nodes && place(id).Some? && place(id).value == b;
      assert NeighborhoodOf(settings, own)(id).None?;
    }
  }

  // ---- What is chosen -----------------------------------------------------

  predicate Once(chosen: seq<Candidate>) {
    forall i, j :: 0 <= i < j < |chosen| ==> chosen[i] != chosen[j]
  }

  predicate AllOf(chosen: seq<Candidate>, candidates: seq<Candidate>) {
    forall i :: 0 <= i < |chosen| ==> chosen[i] in candidates
  }

  /** Two spreads one after the other, the second taking none the first took. */
  lemma BothAreFresh(first: seq<Candidate>, second: seq<Candidate>, taken: set<ContentId>)
    requires Fresh(first, taken) && Fresh(second, taken + NodesOf(first))
    requires forall i :: 0 <= i < |first| ==> first[i].nodeId.Some?
    requires forall i :: 0 <= i < |second| ==> second[i].nodeId.Some?
    ensures Fresh(first + second, taken) && Once(first + second)
    ensures NodesOf(first + second) == NodesOf(first) + NodesOf(second)
  {
    var all := first + second;
    forall i, j | 0 <= i < j < |all|
      ensures all[i].nodeId != all[j].nodeId
    {
      if i < |first| <= j {
        assert all[j] == second[j - |first|];
        assert all[i].nodeId.value in NodesOf(first);
      }
    }
    forall id | id in NodesOf(second) ensures id in NodesOf(all) {
      var i :| 0 <= i < |second| && second[i].nodeId.Some? && second[i].nodeId.value == id;
      assert all[|first| + i] == second[i];
    }
    forall id | id in NodesOf(first) ensures id in NodesOf(all) {
      var i :| 0 <= i < |first| && first[i].nodeId.Some? && first[i].nodeId.value == id;
      assert all[i] == first[i];
    }
  }

  predicate ChosenOrTaken(c: Candidate, chosen: seq<Candidate>, taken: set<ContentId>) {
    c in chosen || (c.nodeId.Some? && c.nodeId.value in taken)
  }

  lemma NodesMore(chosen: seq<Candidate>, c: Candidate)
    ensures NodesOf(chosen + [c]) == NodesOf(chosen) + if c.nodeId.Some? then {c.nodeId.value} else {}
  {
    var all := chosen + [c];
    forall id | id in NodesOf(chosen) ensures id in NodesOf(all) {
      var i :| 0 <= i < |chosen| && chosen[i].nodeId.Some? && chosen[i].nodeId.value == id;
      assert all[i] == chosen[i];
    }
    assert all[|chosen|] == c;
  }

  /** Filling up adds candidates, each once, until the mix is large enough or none is left. */
  lemma {:induction false} FilledUpFills(candidates: seq<Candidate>, chosen: seq<Candidate>, connected: nat, size: nat,
                                         known: set<ContentId>)
    requires Fresh(chosen, known) && Once(chosen)
    ensures var all := FilledUp(candidates, chosen, connected, size, known + NodesOf(chosen));
            && chosen <= all && Fresh(all, known) && Once(all) && AllOf(all, candidates + chosen)
            && (|all| == |chosen| || connected + |all| <= size)
            && (connected + |all| >= size ||
                forall i :: 0 <= i < |candidates| ==> ChosenOrTaken(candidates[i], all, known + NodesOf(all)))
    decreases |candidates|
  {
    if candidates == [] || connected + |chosen| >= size {
      assert forall i :: 0 <= i < |chosen| ==> chosen[i] in chosen;
    } else {
      var c, rest := candidates[0], candidates[1..];
      NodesMore(chosen, c);
      if ChosenOrTaken(c, chosen, known + NodesOf(chosen)) {
        FilledUpFills(rest, chosen, connected, size, known);
        FilledBehind(candidates, chosen, chosen, known,
                     FilledUp(rest, chosen, connected, size, known + NodesOf(chosen)));
      } else {
        assert known + NodesOf(chosen + [c]) ==
               if c.nodeId.Some? then known + NodesOf(chosen) + {c.nodeId.value} else known + NodesOf(chosen);
        AddedIsFresh(chosen, c, known);
        FilledUpFills(rest, chosen + [c], connected, size, known);
        FilledBehind(candidates, chosen, chosen + [c], known,
                     FilledUp(rest, chosen + [c], connected, size, known + NodesOf(chosen + [c])));
      }
    }
  }

  lemma AddedIsFresh(chosen: seq<Candidate>, c: Candidate, known: set<ContentId>)
    requires Fresh(chosen, known) && Once(chosen) && !ChosenOrTaken(c, chosen, known + NodesOf(chosen))
    ensures Fresh(chosen + [c], known) && Once(chosen + [c])
  {
    var all := chosen + [c];
    forall i, j | 0 <= i < j < |all|
      ensures all[i] != all[j] && (all[i].nodeId.Some? ==> all[i].nodeId != all[j].nodeId)
    {
      if j == |chosen| && all[i].nodeId.Some? {
        assert all[i].nodeId.value in NodesOf(chosen);
      }
    }
  }

  lemma FilledBehind(candidates: seq<Candidate>, chosen: seq<Candidate>, more: seq<Candidate>, known: set<ContentId>,
                     all: seq<Candidate>)
    requires candidates != [] && chosen <= more <= all
    requires more == chosen || more == chosen + [candidates[0]]
    requires ChosenOrTaken(candidates[0], more, known + NodesOf(more))
    requires AllOf(all, candidates[1..] + more)
    ensures AllOf(all, candidates + chosen)
    ensures ChosenOrTaken(candidates[0], all, known + NodesOf(all))
    ensures (forall i :: 0 <= i < |candidates[1..]| ==> ChosenOrTaken(candidates[1..][i], all, known + NodesOf(all))) ==>
              forall i :: 0 <= i < |candidates| ==> ChosenOrTaken(candidates[i], all, known + NodesOf(all))
  {
    forall i | 0 <= i < |all| ensures all[i] in candidates + chosen {
      assert all[i] in candidates[1..] + more;
      assert candidates == [candidates[0]] + candidates[1..];
    }
    if candidates[0] in more {
      var i :| 0 <= i < |more| && more[i] == candidates[0];
      assert all[i] == candidates[0];
    } else {
      var id := candidates[0].nodeId.value;
      if id in NodesOf(more) {
        var i :| 0 <= i < |more| && more[i].nodeId.Some? && more[i].nodeId.value == id;
        assert all[i] == more[i];
      }
    }
    assert forall i :: 0 < i < |candidates| ==> candidates[i] == candidates[1..][i - 1];
  }

  /** Whether `c` is the best left to add to those chosen: any listed before it is chosen or taken already. */
  predicate IsBestLeft(candidates: seq<Candidate>, c: Candidate, chosen: seq<Candidate>, known: set<ContentId>) {
    exists k :: 0 <= k < |candidates| && candidates[k] == c &&
                forall i :: 0 <= i < k ==> ChosenOrTaken(candidates[i], chosen, known + NodesOf(chosen))
  }

  lemma ChosenStays(c: Candidate, chosen: seq<Candidate>, more: seq<Candidate>, known: set<ContentId>)
    requires chosen <= more && ChosenOrTaken(c, chosen, known + NodesOf(chosen))
    ensures ChosenOrTaken(c, more, known + NodesOf(more))
  {
    if c in chosen {
      var i :| 0 <= i < |chosen| && chosen[i] == c;
      assert more[i] == c;
    } else if c.nodeId.value in NodesOf(chosen) {
      var i :| 0 <= i < |chosen| && chosen[i].nodeId.Some? && chosen[i].nodeId.value == c.nodeId.value;
      assert more[i] == chosen[i];
    }
  }

  lemma BestLeftBehind(candidates: seq<Candidate>, c: Candidate, chosen: seq<Candidate>, known: set<ContentId>)
    requires candidates != [] && ChosenOrTaken(candidates[0], chosen, known + NodesOf(chosen))
    requires IsBestLeft(candidates[1..], c, chosen, known)
    ensures IsBestLeft(candidates, c, chosen, known)
  {
    var rest := candidates[1..];
    var k :| 0 <= k < |rest| && rest[k] == c &&
             forall i :: 0 <= i < k ==> ChosenOrTaken(rest[i], chosen, known + NodesOf(chosen));
    assert candidates[k + 1] == c;
    forall i | 0 <= i < k + 1
      ensures ChosenOrTaken(candidates[i], chosen, known + NodesOf(chosen))
    {
      if i > 0 {
        assert candidates[i] == rest[i - 1];
      }
    }
  }

  /** Filling up adds the best left each time. */
  lemma {:induction false} FilledUpTakesBest(candidates: seq<Candidate>, chosen: seq<Candidate>, connected: nat, size: nat,
                                             known: set<ContentId>, j: nat)
    requires Fresh(chosen, known) && Once(chosen)
    requires |chosen| <= j < |FilledUp(candidates, chosen, connected, size, known + NodesOf(chosen))|
    ensures var all := FilledUp(candidates, chosen, connected, size, known + NodesOf(chosen));
            IsBestLeft(candidates, all[j], all[..j], known)
    decreases |candidates|
  {
    var c, rest := candidates[0], candidates[1..];
    var all := FilledUp(candidates, chosen, connected, size, known + NodesOf(chosen));
    NodesMore(chosen, c);
    FilledUpFills(candidates, chosen, connected, size, known);
    assert chosen <= all[..j];
    if ChosenOrTaken(c, chosen, known + NodesOf(chosen)) {
      FilledUpTakesBest(rest, chosen, connected, size, known, j);
      ChosenStays(c, chosen, all[..j], known);
      BestLeftBehind(candidates, all[j], all[..j], known);
    } else {
      assert known + NodesOf(chosen + [c]) ==
             if c.nodeId.Some? then known + NodesOf(chosen) + {c.nodeId.value} else known + NodesOf(chosen);
      AddedIsFresh(chosen, c, known);
      FilledUpFills(rest, chosen + [c], connected, size, known);
      assert all[|chosen|] == c;
      if j > |chosen| {
        FilledUpTakesBest(rest, chosen + [c], connected, size, known, j);
        assert all[..j][|chosen|] == c;
        BestLeftBehind(candidates, all[j], all[..j], known);
      } else {
        assert candidates[0] == all[j];
      }
    }
  }

  /** Either enough places of each set are covered, or no known candidate is left that would cover another. */
  lemma SetsAreFilled(candidates: seq<Candidate>, connected: nat, settings: Settings, bucket: Place,
                      neighborhood: Place, covered: Covered, taken: set<ContentId>)
    ensures var mix := Mixed(candidates, connected, settings, bucket, neighborhood, covered, taken);
            && (|mix.first.covered| >= settings.minOutgoing ||
                AllPlaced(candidates, bucket, mix.first.covered, mix.first.taken))
            && (|mix.second.covered| >= settings.minNeighborhood ||
                AllPlaced(candidates, neighborhood, mix.second.covered, mix.second.taken))
            && |mix.first.chosen| <= settings.minOutgoing && |mix.second.chosen| <= settings.minNeighborhood
            && (|mix.first.covered| + |mix.second.covered| + |taken| ==
                |covered.buckets| + |covered.neighborhood| + |mix.second.taken|)
            && (|covered.neighborhood| <= settings.minNeighborhood ==> |mix.second.covered| <= settings.minNeighborhood)
            && (|covered.neighborhood| >= settings.minNeighborhood ==> |mix.second.covered| == |covered.neighborhood|)
  {
    var first := SpreadOver(candidates, bucket, covered.buckets, settings.minOutgoing, taken);
    SpreadFills(candidates, bucket, covered.buckets, settings.minOutgoing, taken);
    SpreadCounts(candidates, bucket, covered.buckets, settings.minOutgoing, taken);
    SpreadFills(candidates, neighborhood, covered.neighborhood, settings.minNeighborhood, first.taken);
    SpreadCounts(candidates, neighborhood, covered.neighborhood, settings.minNeighborhood, first.taken);
  }

  /** Those chosen are distinct candidates, none taken; and the mix is filled up from them. */
  lemma MixIsFresh(candidates: seq<Candidate>, connected: nat, settings: Settings, bucket: Place,
                   neighborhood: Place, covered: Covered, taken: set<ContentId>)
    ensures var mix := Mixed(candidates, connected, settings, bucket, neighborhood, covered, taken);
            && Fresh(mix.chosen, taken) && Once(mix.chosen) && AllOf(mix.chosen, candidates)
            && mix.first.chosen + mix.second.chosen <= mix.chosen
            && (|mix.chosen| == |mix.first.chosen| + |mix.second.chosen| ||
                connected + |mix.chosen| <= MixSize(settings))
            && (connected + |mix.chosen| >= MixSize(settings) ||
                forall i :: 0 <= i < |candidates| ==> ChosenOrTaken(candidates[i], mix.chosen, taken + NodesOf(mix.chosen)))
  {
    var first := SpreadOver(candidates, bucket, covered.buckets, settings.minOutgoing, taken);
    var second := SpreadOver(candidates, neighborhood, covered.neighborhood, settings.minNeighborhood, first.taken);
    SpreadIsFresh(candidates, bucket, covered.buckets, settings.minOutgoing, taken);
    SpreadIsFresh(candidates, neighborhood, covered.neighborhood, settings.minNeighborhood, first.taken);
    var both := first.chosen + second.chosen;
    BothAreFresh(first.chosen, second.chosen, taken);
    assert second.taken == taken + NodesOf(both);
    FilledUpFills(candidates, both, connected, MixSize(settings), taken);
    var all := FilledUp(candidates, both, connected, MixSize(settings), second.taken);
    forall i | 0 <= i < |all| ensures all[i] in candidates {
      assert all[i] in candidates + both;
    }
  }

  /**
   The mix chosen: distinct peers, none connected already. Either enough buckets are then
   covered, or no known candidate is left in another; and so for the neighborhood. Either
   it is as large as it aims to be, or no candidate is left at all; and it is no larger.
   */
  lemma MixIsSpread(candidates: seq<Candidate>, connected: seq<Option<ContentId>>, settings: Settings, own: ContentId)
    ensures var mix := Choosing(candidates, connected, settings, own);
            var taken := Known(connected);
            && Fresh(mix.chosen, taken) && Once(mix.chosen) && AllOf(mix.chosen, candidates)
            && (|mix.first.covered| >= settings.minOutgoing ||
                AllPlaced(candidates, BucketOf(settings), mix.first.covered, mix.first.taken))
            && (|mix.second.covered| >= settings.minNeighborhood ||
                AllPlaced(candidates, NeighborhoodOf(settings, own), mix.second.covered, mix.second.taken))
            && |mix.chosen| <= MixSize(settings)
            && (|connected| + |mix.chosen| >= MixSize(settings) ||
                forall i :: 0 <= i < |candidates| ==> ChosenOrTaken(candidates[i], mix.chosen, taken + NodesOf(mix.chosen)))
  {
    SetsAreFilled(candidates, |connected|, settings, BucketOf(settings), NeighborhoodOf(settings, own),
                  CoveredBy(Known(connected), settings, own), Known(connected));
    MixIsFresh(candidates, |connected|, settings, BucketOf(settings), NeighborhoodOf(settings, own),
               CoveredBy(Known(connected), settings, own), Known(connected));
  }

  /** Past the two spreads, each chosen is the best left. */
  lemma MixTakesBest(candidates: seq<Candidate>, connected: seq<Option<ContentId>>, settings: Settings, own: ContentId, j: nat)
    requires var mix := Choosing(candidates, connected, settings, own);
             |mix.first.chosen| + |mix.second.chosen| <= j < |mix.chosen|
    ensures var mix := Choosing(candidates, connected, settings, own);
            IsBestLeft(candidates, mix.chosen[j], mix.chosen[..j], Known(connected))
  {
    var mix, taken := Choosing(candidates, connected, settings, own), Known(connected);
    var covered := CoveredBy(taken, settings, own);
    SpreadIsFresh(candidates, BucketOf(settings), covered.buckets, settings.minOutgoing, taken);
    SpreadIsFresh(candidates, NeighborhoodOf(settings, own), covered.neighborhood, settings.minNeighborhood, mix.first.taken);
    BothAreFresh(mix.first.chosen, mix.second.chosen, taken);
    var both := mix.first.chosen + mix.second.chosen;
    assert mix.second.taken == taken + NodesOf(both);
    FilledUpTakesBest(candidates, both, |connected|, MixSize(settings), taken, j);
  }

  /** Once the spreads are chosen, it is as it was: one more place than peers, exactly where it was so before. */
  lemma FilledIsNoMore(candidates: seq<Candidate>, connected: seq<Option<ContentId>>, settings: Settings, own: ContentId)
    requires HasBits(own, settings) && forall id :: id in Known(connected) ==> HasBits(id, settings)
    ensures var mix := Choosing(candidates, connected, settings, own);
            && |mix.first.covered| + |mix.second.covered| <= |mix.second.taken| + 1
            && (|mix.first.covered| + |mix.second.covered| > |mix.second.taken| <==>
                EachAlone(Known(connected), settings, own))
            && |mix.first.covered| + Clamped(mix.second.covered, settings) <= |mix.second.taken|
  {
    CoveredIsNoMore(Known(connected), settings, own);
    SetsAreFilled(candidates, |connected|, settings, BucketOf(settings), NeighborhoodOf(settings, own),
                  CoveredBy(Known(connected), settings, own), Known(connected));
  }

  // ---- Two neighbors counted as three -------------------------------------

  /** An identifier of zeros but for its second digit. */
  function Zeros(second: char): ContentId {
    ContentId("sha256", ['0', second] + seq(62, _ => '0'))
  }

  lemma ZerosPlace(second: char, settings: Settings)
    requires IsDigit(second) && settings.bucketBits == 4 && settings.neighborhoodBits == 4
    ensures HasBits(Zeros(second), settings) && BucketOf(settings)(Zeros(second)) == Some(0)
    ensures NeighborhoodOf(settings, Zeros('0'))(Zeros(second)) == Some(Low(Value(second), 4))
  {
    var hash, zeros := Zeros(second).hash, Zeros('0').hash;
    assert hash[..1] == "0" && zeros[..1] == "0" && hash[..2][..1] == "0" && hash[..2][1] == second;
    assert "0"[..0] == "";
    assert Number("0") == 0 && Number(hash[..2]) == Value(second);
    assert DigitsFor(4) == 1 && DigitsFor(8) == 2;
  }

  /** With one neighborhood bucket wanted, two neighbors in two of them are counted as covering three places. */
  lemma TwoCoverThree()
    ensures var settings, nodes := Settings(8, 4, 1, 4), {Zeros('1'), Zeros('2')};
            var covered := CoveredBy(nodes, settings, Zeros('0'));
            |nodes| == 2 && |covered.buckets| == 1 && |covered.neighborhood| == 2
  {
    var settings, nodes := Settings(8, 4, 1, 4), {Zeros('1'), Zeros('2')};
    var place := NeighborhoodOf(settings, Zeros('0'));
    ZerosPlace('0', settings);
    ZerosPlace('1', settings);
    ZerosPlace('2', settings);
    LowOfTwo();
    TwoPlaces(Zeros('1'), Zeros('2'), place, 1, 2);
    assert Zeros('1').hash[1] != Zeros('2').hash[1];
    var neighbors := Neighbors(nodes, settings, Zeros('0'));
    assert neighbors == nodes;
    assert PlacesOf(nodes - neighbors, BucketOf(settings)) == {};
    CoveredCounts(nodes, settings, Zeros('0'), neighbors, {1, 2}, {});
  }

  lemma LowOfTwo()
    ensures Low(1, 4) == 1 && Low(2, 4) == 2
  {
    assert Low(1, 4) == 2 * Low(0, 3) + 1 && Low(0, 3) == 2 * Low(0, 2) == 4 * Low(0, 1) == 0;
    assert Low(2, 4) == 2 * Low(1, 3) == 2 * (2 * Low(0, 2) + 1) && Low(0, 2) == 2 * Low(0, 1) == 0;
  }

  lemma TwoPlaces(a: ContentId, b: ContentId, place: Place, i: nat, j: nat)
    requires place(a) == Some(i) && place(b) == Some(j)
    ensures PlacesOf({a, b}, place) == {i, j}
  {
    assert i in PlacesOf({a, b}, place) && j in PlacesOf({a, b}, place);
  }

  // ---- The loops ----------------------------------------------------------

  method SpreadOut(candidates: seq<Candidate>, place: Place, covered: set<nat>, wanted: nat, taken: set<ContentId>)
    returns (spread: Spread)
    ensures spread == SpreadOver(candidates, place, covered, wanted, taken)
  {
    spread := Spread([], covered, taken);
    var i := 0;
    while i < |candidates|
      invariant 0 <= i <= |candidates|
      invariant var rest := SpreadOver(candidates[i..], place, spread.covered, wanted, spread.taken);
                SpreadOver(candidates, place, covered, wanted, taken) ==
                rest.(chosen := spread.chosen + rest.chosen)
    {
      assert candidates[i..][1..] == candidates[i + 1..];
      if |spread.covered| >= wanted {
        break;
      }
      var c := candidates[i];
      if Fills(c, place, spread.covered, spread.taken) {
        spread := Spread(spread.chosen + [c], spread.covered + {place(c.nodeId.value).value},
                         spread.taken + {c.nodeId.value});
      }
      i := i + 1;
    }
  }

  method FillUp(candidates: seq<Candidate>, spread: seq<Candidate>, connected: nat, size: nat, known: set<ContentId>)
    returns (chosen: seq<Candidate>)
    ensures chosen == FilledUp(candidates, spread, connected, size, known)
  {
    chosen := spread;
    var taken := known;
    var i := 0;
    while i < |candidates| && connected + |chosen| < size
      invariant 0 <= i <= |candidates|
      invariant FilledUp(candidates[i..], chosen, connected, size, taken) ==
                FilledUp(candidates, spread, connected, size, known)
    {
      var c := candidates[i];
      assert candidates[i..][1..] == candidates[i + 1..];
      if c !in chosen && (c.nodeId.None? || c.nodeId.value !in taken) {
        if c.nodeId.Some? {
          taken := taken + {c.nodeId.value};
        }
        chosen := chosen + [c];
      }
      i := i + 1;
    }
  }

  /** The candidates to dial now. */
  method Choose(candidates: seq<Candidate>, connected: seq<Option<ContentId>>, settings: Settings, own: ContentId)
    returns (chosen: seq<Candidate>)
    ensures chosen == Choosing(candidates, connected, settings, own).chosen
  {
    var taken := Known(connected);
    var covered := CoveredBy(taken, settings, own);
    var first := SpreadOut(candidates, BucketOf(settings), covered.buckets, settings.minOutgoing, taken);
    var second := SpreadOut(candidates, NeighborhoodOf(settings, own), covered.neighborhood, settings.minNeighborhood,
                            first.taken);
    chosen := FillUp(candidates, first.chosen + second.chosen, |connected|, MixSize(settings), second.taken);
  }
}
