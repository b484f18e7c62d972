/** A search of the connected peers, and the searches through every stage of their passes. */
module Searches {
  import opened Wrappers
  import opened PartPaths
  import opened TimeLists

  // ---- One search ---------------------------------------------------------

  /**
   How far a search has gone: the peers its pass has asked or passed over, when each that
   did not send the content may be asked again, and how many asks it made in all.
   */
  datatype Search = Search(
    content: ContentId,
    passNumber: nat,
    asks: nat,
    asked: set<ContentId>,
    due: map<ContentId, Time>)

  function Begun(content: ContentId): Search {
    Search(content, 1, 0, {}, map[])
  }

  function DueAt(search: Search, node: ContentId, now: Time): Time {
    if node in search.due then search.due[node] else now
  }

  datatype Chosen = Chosen(search: Search, node: Option<ContentId>)

  /** The peer asked next, of `ranked` best first; one not due yet is passed over for the pass. */
  function Choosing(search: Search, ranked: seq<ContentId>, now: Time): (chosen: Chosen)
    ensures chosen.search.content == search.content && chosen.search.due == search.due
    ensures chosen.search.passNumber == search.passNumber && search.asked <= chosen.search.asked
    ensures chosen.node.None? ==> chosen.search.asks == search.asks
    ensures chosen.node.Some? ==>
              && chosen.node.value !in search.asked && chosen.node.value in chosen.search.asked
              && DueAt(search, chosen.node.value, now) <= now && chosen.search.asks == search.asks + 1
    decreases |ranked|
  {
    if ranked == [] then Chosen(search, None)
    else
      var node := ranked[0];
      if node in search.asked then Choosing(search, ranked[1..], now)
      else
        var tried := search.(asked := search.asked + {node});
        if DueAt(search, node, now) <= now then Chosen(tried.(asks := search.asks + 1), Some(node))
        else Choosing(tried, ranked[1..], now)
  }

  /** Whether `node` is one this pass has asked, or may not ask now. */
  predicate PassedOver(search: Search, node: ContentId, now: Time) {
    node in search.asked || now < DueAt(search, node, now)
  }

  /** Whether `node` is the first of `ranked` not passed over; `None` if all are. */
  predicate IsBest(search: Search, ranked: seq<ContentId>, now: Time, node: Option<ContentId>) {
    match node
    case None => forall i :: 0 <= i < |ranked| ==> PassedOver(search, ranked[i], now)
    case Some(node) =>
      exists k :: 0 <= k < |ranked| && ranked[k] == node && !PassedOver(search, node, now) &&
                  forall i :: 0 <= i < k ==> PassedOver(search, ranked[i], now)
  }

  /** A pass asks the best peer that it has not asked, and that may be asked now. */
  lemma {:induction false} ChoosesBest(search: Search, ranked: seq<ContentId>, now: Time)
    ensures IsBest(search, ranked, now, Choosing(search, ranked, now).node)
    decreases |ranked|
  {
    if ranked != [] && PassedOver(search, ranked[0], now) {
      var tried := search.(asked := search.asked + {ranked[0]});
      assert ranked[0] in search.asked ==> tried == search;
      ChoosesBest(tried, ranked[1..], now);
      BestBehind(search, tried, ranked, now, Choosing(tried, ranked[1..], now).node);
    } else if ranked != [] {
      assert ranked[0] == Choosing(search, ranked, now).node.value;
    }
  }

  /** What is best of the peers behind one passed over is the best of them all. */
  lemma BestBehind(search: Search, tried: Search, ranked: seq<ContentId>, now: Time, node: Option<ContentId>)
    requires ranked != [] && PassedOver(search, ranked[0], now)
    requires tried == search.(asked := search.asked + {ranked[0]})
    requires IsBest(tried, ranked[1..], now, node)
    ensures IsBest(search, ranked, now, node)
  {
    var rest := ranked[1..];
    assert forall i :: 0 < i < |ranked| ==> ranked[i] == rest[i - 1];
    if node.Some? {
      var k :| 0 <= k < |rest| && rest[k] == node.value && !PassedOver(tried, node.value, now) &&
               forall i :: 0 <= i < k ==> PassedOver(tried, rest[i], now);
      assert ranked[k + 1] == node.value;
    }
  }

  function Later(a: Time, b: Time): Time {
    if a < b then b else a
  }

  /** When the last of `ranked` may be asked again. */
  function LastDue(search: Search, ranked: seq<ContentId>, now: Time): Time {
    if ranked == [] then now
    else if |ranked| == 1 then DueAt(search, ranked[0], now)
    else Later(LastDue(search, ranked[..|ranked| - 1], now), DueAt(search, ranked[|ranked| - 1], now))
  }

  function Resuming(search: Search, ranked: seq<ContentId>, now: Time, pause: Time): Time {
    var last := LastDue(search, ranked, now);
    if last < now + pause then last else now + pause
  }

  function NextPass(search: Search): Search {
    search.(passNumber := search.passNumber + 1, asked := {})
  }

  function Refusing(search: Search, node: ContentId, until: Time): Search {
    search.(due := search.due[node := until])
  }

  class SearchRun {
    const content: ContentId
    const pauseSeconds: Time
    const passes: nat
    var passNumber: nat
    var asks: nat
    var asked: set<ContentId>
    var due: map<ContentId, Time>

    function State(): Search
      reads this
    {
      Search(content, passNumber, asks, asked, due)
    }

    constructor (content: ContentId, pauseSeconds: Time, passes: nat)
      ensures State() == Begun(content)
      ensures this.pauseSeconds == pauseSeconds && this.passes == passes
    {
      this.content, this.pauseSeconds, this.passes := content, pauseSeconds, passes;
      passNumber, asks, asked, due := 1, 0, {}, map[];
    }

    method NextPeer(ranked: seq<ContentId>, now: Time) returns (node: Option<ContentId>)
      modifies this
      ensures Chosen(State(), node) == Choosing(old(State()), ranked, now)
    {
      var i := 0;
      while i < |ranked|
        invariant 0 <= i <= |ranked|
        invariant Choosing(State(), ranked[i..], now) == Choosing(old(State()), ranked, now)
      {
        var candidate := ranked[i];
        assert ranked[i..][1..] == ranked[i + 1..];
        if candidate !in asked {
          asked := asked + {candidate};
          if candidate !in due || due[candidate] <= now {
            asks := asks + 1;
            return Some(candidate);
          }
        }
        i := i + 1;
      }
      return None;
    }

    method StartNextPass(ranked: seq<ContentId>, now: Time) returns (resumeAt: Time)
      modifies this
      ensures State() == NextPass(old(State()))
      ensures resumeAt == Resuming(old(State()), ranked, now, pauseSeconds)
    {
      passNumber := passNumber + 1;
      asked := {};
      var last := now;
      var i := 0;
      while i < |ranked|
        invariant 0 <= i <= |ranked|
        invariant State() == NextPass(old(State()))
        invariant last == LastDue(old(State()), ranked[..i], now)
      {
        var dueAt := if ranked[i] in due then due[ranked[i]] else now;
        assert ranked[..i + 1][..i] == ranked[..i];
        last := if i == 0 then dueAt else Later(last, dueAt);
        i := i + 1;
      }
      assert ranked[..i] == ranked;
      resumeAt := if last < now + pauseSeconds then last else now + pauseSeconds;
    }

    method NotFound(node: ContentId, now: Time, retryAfterSeconds: Option<Time>)
      modifies this
      ensures State() == Refusing(old(State()), node, now + if retryAfterSeconds.Some? then retryAfterSeconds.value
                                                             else pauseSeconds)
    {
      due := due[node := now + if retryAfterSeconds.Some? then retryAfterSeconds.value else pauseSeconds];
    }
  }

  // ---- The searches of one kind -------------------------------------------

  datatype Wait<Run> = Wait(until: Time, order: nat, run: Run)

  /** Those under way by what they seek, those waiting, soonest first, and what is held. */
  datatype Table<Run> = Table(underWay: map<ContentId, Run>, waiting: seq<Wait<Run>>, order: nat, held: seq<Entry>)

  predicate UnderWay<Run(==)>(t: Table<Run>, key: ContentId, run: Run) {
    key in t.underWay && t.underWay[key] == run
  }

  function Ended<Run>(t: Table<Run>, key: ContentId): Table<Run> {
    t.(underWay := t.underWay - {key})
  }

  predicate Sooner<Run>(a: Wait<Run>, b: Wait<Run>) {
    a.until < b.until || (a.until == b.until && a.order < b.order)
  }

  /** `waits` with `w` in its place, of those kept soonest first. */
  function Inserted<Run>(waits: seq<Wait<Run>>, w: Wait<Run>): (r: seq<Wait<Run>>)
    ensures |r| == |waits| + 1
  {
    if waits == [] || Sooner(w, waits[0]) then [w] + waits else [waits[0]] + Inserted(waits[1..], w)
  }

  predicate SoonestFirst<Run(!new)>(waits: seq<Wait<Run>>) {
    forall i, j :: 0 <= i < j < |waits| ==> Sooner(waits[i], waits[j])
  }

  predicate OrdersBelow<Run(!new)>(waits: seq<Wait<Run>>, order: nat) {
    forall i :: 0 <= i < |waits| ==> waits[i].order < order
  }

  lemma {:induction false} InsertedHolds<Run>(waits: seq<Wait<Run>>, w: Wait<Run>)
    ensures multiset(Inserted(waits, w)) == multiset(waits) + multiset{w}
  {
    if waits != [] {
      assert waits == [waits[0]] + waits[1..];
      InsertedHolds(waits[1..], w);
    }
  }

  lemma {:induction false} InsertedIsSoonestFirst<Run(!new)>(waits: seq<Wait<Run>>, w: Wait<Run>)
    requires SoonestFirst(waits) && OrdersBelow(waits, w.order)
    ensures SoonestFirst(Inserted(waits, w)) && OrdersBelow(Inserted(waits, w), w.order + 1)
    ensures multiset(Inserted(waits, w)) == multiset(waits) + multiset{w}
  {
    InsertedHolds(waits, w);
    if waits != [] {
      if !Sooner(w, waits[0]) {
        InsertedIsSoonestFirst(waits[1..], w);
        var rest := Inserted(waits[1..], w);
        InsertedHolds(waits[1..], w);
        forall i | 0 <= i < |rest|
          ensures Sooner(waits[0], rest[i])
        {
          assert rest[i] in multiset(rest);
          assert rest[i] == w || rest[i] in multiset(waits[1..]);
        }
      }
    }
  }

  /** How many of the soonest are over by `now`. */
  function Over<Run>(waits: seq<Wait<Run>>, now: Time): (n: nat)
    ensures n <= |waits|
  {
    if waits == [] || waits[0].until > now then 0 else 1 + Over(waits[1..], now)
  }

  function RunsOf<Run>(waits: seq<Wait<Run>>): (runs: seq<Run>)
    ensures |runs| == |waits|
    ensures forall i :: 0 <= i < |runs| ==> runs[i] == waits[i].run
  {
    if waits == [] then [] else [waits[0].run] + RunsOf(waits[1..])
  }

  /** Those resumed are all whose wait is over, and no other. */
  lemma {:induction false} OverAreDue<Run(!new)>(waits: seq<Wait<Run>>, now: Time)
    requires SoonestFirst(waits)
    ensures forall i :: 0 <= i < |waits| ==> (waits[i].until <= now <==> i < Over(waits, now))
  {
    if waits != [] {
      if waits[0].until > now {
        assert forall i :: 0 < i < |waits| ==> Sooner(waits[0], waits[i]);
      } else {
        var rest := waits[1..];
        OverAreDue(rest, now);
        assert forall i :: 0 < i < |waits| ==> waits[i] == rest[i - 1];
      }
    }
  }

  function UntilOf(held: seq<Entry>, key: ContentId, now: Time): Time {
    match At(held, key) case None => now case Some(until) => until
  }

  class SearchesKept<Run(==)> {
    var underWay: map<ContentId, Run>
    var waiting: seq<Wait<Run>>
    var order: nat
    var held: seq<Entry>

    function State(): Table<Run>
      reads this
    {
      Table(underWay, waiting, order, held)
    }

    constructor ()
      ensures State() == Table(map[], [], 0, [])
    {
      underWay, waiting, order, held := map[], [], 0, [];
    }

    method End(key: ContentId, run: Run) returns (was: bool)
      modifies this
      ensures was <==> UnderWay(old(State()), key, run)
      ensures State() == if was then Ended(old(State()), key) else old(State())
    {
      if key !in underWay || underWay[key] != run {
        return false;
      }
      underWay := underWay - {key};
      return true;
    }

    method WaitUntil(run: Run, until: Time)
      modifies this
      ensures State() == old(State()).(waiting := Inserted(old(waiting), Wait(until, old(order), run)),
                                       order := old(order) + 1)
    {
      waiting := Inserted(waiting, Wait(until, order, run));
      order := order + 1;
    }

    method Resumed(now: Time) returns (runs: seq<Run>)
      modifies this
      ensures var n := Over(old(waiting), now);
              && runs == RunsOf(old(waiting)[..n])
              && State() == old(State()).(waiting := old(waiting)[n..])
    {
      runs := [];
      ghost var i := 0;
      while waiting != [] && waiting[0].until <= now
        invariant 0 <= i <= |old(waiting)|
        invariant waiting == old(waiting)[i..] && runs == RunsOf(old(waiting)[..i])
        invariant State() == old(State()).(waiting := waiting)
        invariant i + Over(waiting, now) == Over(old(waiting), now)
        decreases |waiting|
      {
        assert old(waiting)[..i + 1][..i] == old(waiting)[..i];
        assert RunsOf(old(waiting)[..i + 1]) == runs + [waiting[0].run];
        runs := runs + [waiting[0].run];
        waiting := waiting[1..];
        i := i + 1;
      }
    }

    method HoldUntil(key: ContentId, until: Time)
      modifies this
      ensures State() == old(State()).(held := Put(old(held), key, until))
    {
      held := Put(held, key, until);
    }

    method Release(key: ContentId)
      modifies this
      ensures State() == old(State()).(held := Without(old(held), key))
    {
      held := Without(held, key);
    }

    method HeldUntil(key: ContentId, now: Time) returns (until: Time)
      modifies this
      ensures State() == old(State()).(held := Dropped(old(held), now))
      ensures until == UntilOf(held, key, now)
    {
      while held != [] && held[0].at <= now
        invariant Dropped(held, now) == Dropped(old(held), now)
        invariant State() == old(State()).(held := held)
        decreases |held|
      {
        held := held[1..];
      }
      until := UntilOf(held, key, now);
    }
  }
}
