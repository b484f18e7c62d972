/** Nonces searched for in rounds, shared among processes that each keep the search last sent. */
module Drops {
  import opened Wrappers
  import opened Hex
  import opened Buckets
  import opened Bits
  import opened Nonces

  const TRIES_PER_CLOCK_READ: nat := 4096

  // ---- The shares of a round ----------------------------------------------

  /** Whether each of `counts` is nearest of its share of a round of `tries` counts each. */
  ghost predicate ShareIsNearest(counts: seq<nat>, start: nat, tries: nat, distance: nat -> nat) {
    forall i :: 0 <= i < |counts| ==>
      IsNearest(counts[i], start + i * tries, start + (i + 1) * tries, distance)
  }

  /** The nearest of one share and of what follows is the nearest of both. */
  lemma NearestOfBoth(a: nat, b: nat, start: nat, middle: nat, stop: nat, distance: nat -> nat)
    requires IsNearest(a, start, middle, distance) && IsNearest(b, middle, stop, distance)
    ensures IsNearest(if distance(b) < distance(a) then b else a, start, stop, distance)
  {
  }

  /** The first nearest of the counts of each process, least first. */
  method Least(counts: seq<nat>, start: nat, tries: nat, distance: nat -> nat) returns (best: nat)
    requires counts != [] && ShareIsNearest(counts, start, tries, distance)
    ensures IsNearest(best, start, start + |counts| * tries, distance)
  {
    best := counts[0];
    var i := 1;
    assert IsNearest(counts[0], start + 0 * tries, start + (0 + 1) * tries, distance);
    while i < |counts|
      invariant 1 <= i <= |counts|
      invariant IsNearest(best, start, start + i * tries, distance)
    {
      NearestOfBoth(best, counts[i], start, start + i * tries, start + (i + 1) * tries, distance);
      if distance(counts[i]) < distance(best) {
        best := counts[i];
      }
      i := i + 1;
    }
  }

  // ---- The searching processes --------------------------------------------

  /** A search as the node holds it, told apart from others by which it is. */
  class NonceSearch {
    const search: Search

    constructor (search: Search)
      ensures this.search == search
    {
      this.search := search;
    }
  }

  /** A searching process, and the search it last read. */
  datatype Searcher = Searcher(held: Search)

  const NEVER_SEARCHED := Search([], seq(TARGET_BYTES, _ => 0), [])

  /** A round read: a search that follows takes the place of the one held. */
  function Reads(searcher: Searcher, following: Bytes): Searcher {
    if following == [] then searcher
    else match Decoded(following) case None => searcher case Some(search) => Searcher(search)
  }

  /** What fails in a round, if anything: a process does not start, or exits before one is asked or answers. */
  datatype Fault = NoFault | Starting(nth: nat) | Asking(nth: nat) | Answering(nth: nat)

  datatype SearchError = SearcherFailed | BadTries

  class NonceSearchers {
    const processes: nat
    const hash: Hash
    var searchers: seq<Searcher>
    var holding: NonceSearch?

    /** Every process holds the search last sent, if one is known to be held. */
    ghost predicate Valid()
      reads this
    {
      && processes >= 1 && IsHash(hash)
      && |searchers| <= processes
      && (holding != null ==> |searchers| == processes && forall i :: 0 <= i < |searchers| ==> searchers[i].held == holding.search)
    }

    /** Whether `fault` befalls a process there is, or one that has yet to start. */
    predicate Befalls(fault: Fault)
      reads this
    {
      match fault
      case NoFault => false
      case Starting(nth) => |searchers| + nth < processes
      case Asking(nth) => nth < processes
      case Answering(nth) => nth < processes
    }

    constructor (processes: nat, hash: Hash)
      requires processes >= 1 && IsHash(hash)
      ensures Valid() && this.processes == processes && this.hash == hash
    {
      this.processes, this.hash := processes, hash;
      searchers, holding := [], null;
    }

    method Stop()
      requires Valid()
      modifies this
      ensures Valid() && searchers == [] && holding == null
    {
      searchers, holding := [], null;
    }

    method StartAll(fault: Fault) returns (ok: bool)
      requires Valid()
      modifies this`searchers
      ensures Valid() && (ok ==> |searchers| == processes) && (ok <==> !(fault.Starting? && old(Befalls(fault))))
      ensures holding != null ==> searchers == old(searchers)
    {
      var started := 0;
      while |searchers| < processes
        invariant Valid() && (holding != null ==> searchers == old(searchers))
        invariant |searchers| == |old(searchers)| + started && (fault.Starting? ==> started <= fault.nth)
        decreases processes - |searchers|
      {
        if fault == Starting(started) {
          return false;
        }
        searchers := searchers + [Searcher(NEVER_SEARCHED)];
        started := started + 1;
      }
      return true;
    }

    /** Each process is sent its share of the round, and the search too unless all hold it. */
    method Ask(asked: NonceSearch, fault: Fault) returns (ok: bool)
      requires Valid() && |searchers| == processes && CanSend(asked.search)
      modifies this
      ensures |searchers| == processes && (ok <==> !(fault.Asking? && fault.nth < processes))
      ensures ok ==> Valid() && holding == asked
    {
      var following := if asked == holding then [] else Encoded(asked.search);
      SentIsRead(asked.search);
      var index := 0;
      while index < |searchers|
        invariant 0 <= index <= |searchers| == processes && holding == old(holding)
        invariant fault.Asking? ==> index <= fault.nth
        invariant forall i :: 0 <= i < index ==> searchers[i].held == asked.search
        invariant forall i :: index <= i < |searchers| ==> searchers[i] == old(searchers)[i]
      {
        if fault == Asking(index) {
          return false;
        }
        searchers := searchers[index := Reads(searchers[index], following)];
        index := index + 1;
      }
      holding := asked;
      return true;
    }

    /** What each process finds nearest, of its share of a round. */
    method Round(asked: NonceSearch, start: nat, tries: nat, fault: Fault) returns (r: Result<seq<nat>, SearchError>)
      requires Valid() && CanSend(asked.search) && tries >= 1
      modifies this
      ensures r.Success? ==> Valid() && |r.value| == processes
      ensures r.Success? ==> ShareIsNearest(r.value, start, tries, Distances(asked.search, hash))
      ensures r.Success? <==> !old(Befalls(fault))
    {
      var started := StartAll(fault);
      if !started {
        return Failure(SearcherFailed);
      }
      var sent := Ask(asked, fault);
      if !sent {
        return Failure(SearcherFailed);
      }
      var counts: seq<nat> := [];
      var index := 0;
      while index < |searchers|
        invariant 0 <= index == |counts| <= |searchers| == processes
        invariant Valid() && holding == asked && (fault.Answering? ==> index <= fault.nth)
        invariant ShareIsNearest(counts, start, tries, Distances(asked.search, hash))
      {
        if fault == Answering(index) {
          return Failure(SearcherFailed);
        }
        ShareIsSome(start, index, tries);
        var count := Nearest(searchers[index].held, start + index * tries, start + (index + 1) * tries, hash);
        counts := counts + [count.value];
        index := index + 1;
      }
      return Success(counts);
    }

    /**
     The count nearest of a round, whatever the number of processes; where one fails, every one
     is stopped, so that the next round starts them afresh.
     */
    method RoundNearest(asked: NonceSearch, start: nat, tries: nat, fault: Fault) returns (r: Result<nat, SearchError>)
      requires Valid() && CanSend(asked.search)
      modifies this
      ensures Valid()
      ensures r == Failure(BadTries) <==> tries < 1
      ensures r.Success? ==> IsNearest(r.value, start, start + processes * tries, Distances(asked.search, hash))
      ensures r == Failure(SearcherFailed) ==> searchers == [] && holding == null
      ensures r == Failure(SearcherFailed) <==> tries >= 1 && old(Befalls(fault))
    {
      if tries < 1 {
        return Failure(BadTries);
      }
      var counts := Round(asked, start, tries, fault);
      if counts.Failure? {
        searchers, holding := [], null;
        return Failure(SearcherFailed);
      }
      var best := Least(counts.value, start, tries, Distances(asked.search, hash));
      return Success(best);
    }
  }

  lemma ShareIsSome(start: nat, index: nat, tries: nat)
    requires tries >= 1
    ensures start + index * tries < start + (index + 1) * tries
  {
  }

  // ---- A whole search -----------------------------------------------------

  /** A nonce tried: the empty one, which is tried first, or a count's. */
  datatype Tried = Empty | Counted(count: nat)

  function NonceOf(tried: Tried): Bytes {
    match tried case Empty => [] case Counted(count) => Nonce(count)
  }

  function DistanceOf(search: Search, tried: Tried, hash: Hash): nat {
    Distance(search, NonceOf(tried), hash)
  }

  /** Whether `best` is the first nonce, in the order tried, of least distance among the empty one and those below `tried`. */
  ghost predicate IsBest(best: Tried, tried: nat, search: Search, hash: Hash) {
    && (best.Counted? ==> best.count < tried && DistanceOf(search, best, hash) < DistanceOf(search, Empty, hash))
    && DistanceOf(search, best, hash) <= DistanceOf(search, Empty, hash)
    && (forall count :: 0 <= count < tried ==>
          DistanceOf(search, best, hash) <= Distances(search, hash)(count) &&
          (best.Counted? && count < best.count ==> DistanceOf(search, best, hash) < Distances(search, hash)(count)))
  }

  /** How many leading bits two hashes share, `distance` being their exclusive or. */
  function MatchingBitsOf(distance: nat): int {
    TARGET_BITS - BitLength(distance)
  }

  /** What a round finds nearest takes the place of the best so far if it is nearer. */
  lemma BestAfterRound(best: Tried, tried: nat, found: nat, more: nat, search: Search, hash: Hash)
    requires IsBest(best, tried, search, hash) && IsNearest(found, tried, tried + more, Distances(search, hash))
    ensures IsBest(if DistanceOf(search, Counted(found), hash) < DistanceOf(search, best, hash) then Counted(found) else best,
                   tried + more, search, hash)
  {
    assert Distances(search, hash)(found) == DistanceOf(search, Counted(found), hash);
  }

  /** There is one best nonce, however many processes found it. */
  lemma BestIsOne(a: Tried, b: Tried, tried: nat, search: Search, hash: Hash)
    requires IsBest(a, tried, search, hash) && IsBest(b, tried, search, hash)
    ensures a == b
  {
    if a.Counted? {
      assert Distances(search, hash)(a.count) == DistanceOf(search, a, hash);
    }
    if b.Counted? {
      assert Distances(search, hash)(b.count) == DistanceOf(search, b, hash);
    }
  }

  /** The nearest of all tried matches as many leading bits as any of them. */
  lemma NearestSharesMost(best: Tried, tried: nat, search: Search, hash: Hash, count: nat)
    requires IsBest(best, tried, search, hash) && count < tried
    ensures MatchingBitsOf(DistanceOf(search, best, hash)) >= MatchingBitsOf(Distances(search, hash)(count))
    ensures MatchingBitsOf(DistanceOf(search, best, hash)) >= MatchingBitsOf(DistanceOf(search, Empty, hash))
  {
    assert DistanceOf(search, best, hash) <= Distances(search, hash)(count);
    LengthIsMonotone(DistanceOf(search, best, hash), Distances(search, hash)(count));
    LengthIsMonotone(DistanceOf(search, best, hash), DistanceOf(search, Empty, hash));
  }

  /** A nonce is as far off as the prefix, it and the suffix together hash to, bit against bit of the target. */
  lemma DistanceIsOfTheHash(search: Search, tried: Tried, hash: Hash)
    requires IsSearch(search) && IsHash(hash)
    ensures var nonce := if tried.Empty? then [] else Nonce(tried.count);
            var a, b := BitsOfBytes(hash(search.prefix + nonce + search.suffix)), BitsOfBytes(search.target);
            && |a| == |b| == 256 && DistanceOf(search, tried, hash) == Num(XorBits(a, b))
            && MatchingBitsOf(DistanceOf(search, tried, hash)) == Shared(a, b)
  {
    var nonce := if tried.Empty? then [] else Nonce(tried.count);
    assert search.prefix + nonce + search.suffix == search.prefix + (nonce + search.suffix);
    var a, b := hash(search.prefix + nonce + search.suffix), search.target;
    BytesAreBits(a);
    BytesAreBits(b);
    XorOfNums(BitsOfBytes(a), BitsOfBytes(b));
    DistanceTellsShared(BitsOfBytes(a), BitsOfBytes(b));
  }

  /** The bits matched by distance are those matched a hex digit at a time. */
  lemma MatchingBitsAreDigits(a: Bytes, b: Bytes)
    requires |a| == |b| == TARGET_BYTES
    ensures MatchingBitsOf(Xor(FromBytes(a), FromBytes(b))) ==
            Shared(BitsOfDigits(Encode(a)), BitsOfDigits(Encode(b)))
  {
    BytesAreBits(a);
    BytesAreBits(b);
    DistanceTellsShared(BitsOfBytes(a), BitsOfBytes(b));
    BitsOfHex(a);
    BitsOfHex(b);
  }

  /** A search has had its time, and matches enough. */
  predicate MayStop(best: Tried, round: nat, search: Search, hash: Hash, clock: nat -> real, seconds: real,
                    minimumBits: nat)
  {
    clock(round + 1) >= clock(0) + seconds && MatchingBitsOf(DistanceOf(search, best, hash)) >= minimumBits
  }

  /** After `rounds`, the time is over, and some nonce tried, if any need, matches enough. */
  ghost predicate Suffices(rounds: nat, each: nat, search: Search, hash: Hash, clock: nat -> real, seconds: real,
                           minimumBits: nat)
  {
    && clock(rounds + 1) >= clock(0) + seconds
    && (minimumBits == 0 ||
        exists count :: 0 <= count < rounds * each && MatchingBitsOf(Distances(search, hash)(count)) >= minimumBits)
  }

  lemma MatchingIsNatural(search: Search, nonce: Bytes, hash: Hash)
    requires IsSearch(search) && IsHash(hash)
    ensures 0 <= MatchingBitsOf(Distance(search, nonce, hash)) <= TARGET_BITS
  {
    var a, b := hash(search.prefix + (nonce + search.suffix)), search.target;
    BytesAreBits(a);
    BytesAreBits(b);
    DistanceTellsShared(BitsOfBytes(a), BitsOfBytes(b));
  }

  /** Once enough has been tried, the best so far may be stopped at. */
  lemma SufficientStops(best: Tried, rounds: nat, each: nat, search: Search, hash: Hash, clock: nat -> real,
                        seconds: real, minimumBits: nat)
    requires IsSearch(search) && IsHash(hash)
    requires IsBest(best, rounds * each, search, hash)
    requires Suffices(rounds, each, search, hash, clock, seconds, minimumBits)
    ensures MayStop(best, rounds, search, hash, clock, seconds, minimumBits)
  {
    MatchingIsNatural(search, NonceOf(best), hash);
    if minimumBits > 0 {
      var count :| 0 <= count < rounds * each && MatchingBitsOf(Distances(search, hash)(count)) >= minimumBits;
      NearestSharesMost(best, rounds * each, search, hash, count);
    }
  }

  datatype Found = Best(tried: Tried) | Refused | Failed

  /** The outcome of a search: the best of all the rounds it made, which were as many as it had to make. */
  ghost predicate IsFound(best: Tried, each: nat, search: Search, hash: Hash, clock: nat -> real, seconds: real,
                          minimumBits: nat)
  {
    exists rounds: nat ::
      && IsBest(best, rounds * each, search, hash) && MayStop(best, rounds, search, hash, clock, seconds, minimumBits)
      && GoesOnThrough(rounds, each, search, hash, clock, seconds, minimumBits)
  }

  /** Whether it goes on after each of the rounds before so many. */
  ghost predicate GoesOnThrough(rounds: nat, each: nat, search: Search, hash: Hash, clock: nat -> real, seconds: real,
                                minimumBits: nat)
  {
    forall k: nat :: k < rounds ==> !StopsAfter(k, each, search, hash, clock, seconds, minimumBits)
  }

  /** Whether the best of so many rounds may be stopped at. */
  ghost predicate StopsAfter(rounds: nat, each: nat, search: Search, hash: Hash, clock: nat -> real, seconds: real,
                             minimumBits: nat)
  {
    exists best ::
      IsBest(best, rounds * each, search, hash) && MayStop(best, rounds, search, hash, clock, seconds, minimumBits)
  }

  lemma GoesOnAfter(best: Tried, rounds: nat, each: nat, search: Search, hash: Hash, clock: nat -> real, seconds: real,
                    minimumBits: nat)
    requires IsBest(best, rounds * each, search, hash)
    requires !MayStop(best, rounds, search, hash, clock, seconds, minimumBits)
    requires GoesOnThrough(rounds, each, search, hash, clock, seconds, minimumBits)
    ensures GoesOnThrough(rounds + 1, each, search, hash, clock, seconds, minimumBits)
  {
    forall other | IsBest(other, rounds * each, search, hash)
      ensures other == best
    {
      BestIsOne(best, other, rounds * each, search, hash);
    }
  }

  /**
   The nonce nearest the target, of those tried: for `seconds`, and after that until it
   matches `minimumBits`. `enough` is how many rounds would do, as some number must for the
   search to end.
   */
  method FindNonce(searchers: NonceSearchers, asked: NonceSearch, seconds: real, minimumBits: nat, clock: nat -> real,
                   faults: nat -> Fault, ghost enough: nat)
    returns (found: Found)
    requires searchers.Valid() && CanSend(asked.search)
    requires seconds >= 0.0 && minimumBits <= TARGET_BITS ==>
               Suffices(enough, searchers.processes * TRIES_PER_CLOCK_READ, asked.search, searchers.hash, clock, seconds,
                        minimumBits)
    modifies searchers
    ensures searchers.Valid()
    ensures found.Refused? <==> seconds < 0.0 || minimumBits > TARGET_BITS
    ensures found.Best? ==> IsFound(found.tried, searchers.processes * TRIES_PER_CLOCK_READ, asked.search,
                                    searchers.hash, clock, seconds, minimumBits)
    ensures (forall round :: faults(round).NoFault?) ==> !found.Failed?
  {
    if seconds < 0.0 || minimumBits > TARGET_BITS {
      return Refused;
    }
    var search := asked.search;
    var each: nat := searchers.processes * TRIES_PER_CLOCK_READ;
    var best := Empty;
    var bestDistance: nat := Distance(search, [], searchers.hash);
    var tried: nat, round: nat := 0, 0;
    var deadline := clock(0) + seconds;
    while clock(round + 1) < deadline || MatchingBitsOf(bestDistance) < minimumBits
      invariant searchers.Valid() && round <= enough && tried == round * each
      invariant bestDistance == DistanceOf(search, best, searchers.hash)
      invariant IsBest(best, tried, search, searchers.hash)
      invariant GoesOnThrough(round, each, search, searchers.hash, clock, seconds, minimumBits)
      decreases enough - round
    {
      GoesOnAfter(best, round, each, search, searchers.hash, clock, seconds, minimumBits);
      if round == enough {
        SufficientStops(best, round, each, search, searchers.hash, clock, seconds, minimumBits);
        assert false;
      }
      var next := OneRound(searchers, asked, best, tried, faults(round));
      if next.None? {
        return Failed;
      }
      best, bestDistance := next.value, DistanceOf(search, next.value, searchers.hash);
      assert (round + 1) * each == round * each + each;
      tried, round := tried + each, round + 1;
    }
    assert MayStop(best, round, search, searchers.hash, clock, seconds, minimumBits);
    return Best(best);
  }

  /** The best of those tried before and of a round more. */
  method OneRound(searchers: NonceSearchers, asked: NonceSearch, best: Tried, tried: nat, fault: Fault)
    returns (next: Option<Tried>)
    requires searchers.Valid() && CanSend(asked.search)
    requires IsBest(best, tried, asked.search, searchers.hash)
    modifies searchers
    ensures searchers.Valid() && (next.None? <==> old(searchers.Befalls(fault)))
    ensures next.Some? ==>
              IsBest(next.value, tried + searchers.processes * TRIES_PER_CLOCK_READ, asked.search, searchers.hash)
  {
    var nearest := searchers.RoundNearest(asked, tried, TRIES_PER_CLOCK_READ, fault);
    if nearest.Failure? {
      assert nearest.error == BadTries || nearest.error == SearcherFailed;
      return None;
    }
    BestAfterRound(best, tried, nearest.value, searchers.processes * TRIES_PER_CLOCK_READ, asked.search, searchers.hash);
    if DistanceOf(asked.search, Counted(nearest.value), searchers.hash) < DistanceOf(asked.search, best, searchers.hash) {
      next := Some(Counted(nearest.value));
    } else {
      next := Some(best);
    }
  }
}
