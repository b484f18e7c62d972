/** Pushing new content, a batch at a time, each item to the best peer it can be sent to. */
module Pushes {
  import opened Wrappers
  import opened PartPaths

  /** Content this node has just stored, and the node it came from. */
  datatype NewContent = NewContent(contentId: ContentId, source: ContentId)

  /** New content being pushed: its place in the batch, the peers it may go to, best first, and those tried. */
  datatype Push = Push(index: nat, item: NewContent, ranked: seq<ContentId>, tried: set<ContentId>)

  datatype Tried = Tried(push: Push, node: Option<ContentId>)

  /** The best peer not tried yet, now counted as tried. */
  function NextPeer(push: Push): Tried {
    match Untried(push.ranked, push.tried)
    case None => Tried(push, None)
    case Some(node) => Tried(push.(tried := push.tried + {node}), Some(node))
  }

  function Untried(ranked: seq<ContentId>, tried: set<ContentId>): Option<ContentId> {
    if ranked == [] then None else if ranked[0] !in tried then Some(ranked[0]) else Untried(ranked[1..], tried)
  }

  /** A push as the worker carries it, counting the peers it tries. */
  class PushCarried {
    const item: NewContent
    const ranked: seq<ContentId>
    var tried: set<ContentId>

    constructor (item: NewContent, ranked: seq<ContentId>)
      ensures this.item == item && this.ranked == ranked && tried == {}
    {
      this.item, this.ranked, tried := item, ranked, {};
    }

    method Next() returns (node: Option<ContentId>)
      modifies this
      ensures Tried(Push(0, item, ranked, tried), node) == NextPeer(Push(0, item, ranked, old(tried)))
    {
      var i := 0;
      while i < |ranked|
        invariant 0 <= i <= |ranked| && tried == old(tried)
        invariant Untried(ranked[i..], tried) == Untried(ranked, tried)
      {
        assert ranked[i..][1..] == ranked[i + 1..];
        if ranked[i] !in tried {
          tried := tried + {ranked[i]};
          return Some(ranked[i]);
        }
        i := i + 1;
      }
      return None;
    }
  }

  /**
   Whether each of a batch can be read, and the peers connected then, best match first;
   what becomes of the exchanges, which may change from one round to the next; and who is
   connected as an item has tried every peer it may go to.
   */
  datatype World = World(
    readable: nat -> bool,
    ranked: nat -> seq<ContentId>,
    reaches: (nat, ContentId) -> bool,
    connected: (nat, nat) -> set<ContentId>)

  /** How a push ends: kept until a connection opens, or queued again as one has meanwhile. */
  datatype Fate = Delivered(node: ContentId) | Returned | Kept | Queued

  datatype End = End(push: Push, fate: Fate)

  datatype Exchange = Exchange(round: nat, node: ContentId, pushes: seq<Push>)

  function Peers(ranked: seq<ContentId>): set<ContentId> {
    set i | 0 <= i < |ranked| :: ranked[i]
  }

  /** Each item's fate by itself: the first of its peers that is reached, unless its source comes before. */
  function FateFrom(push: Push, round: nat, world: World): Fate
    decreases |push.ranked| - round
  {
    if round >= |push.ranked| then
      if world.connected(round, push.index) <= Peers(push.ranked) then Kept else Queued
    else if push.ranked[round] == push.item.source then Returned
    else if world.reaches(round, push.ranked[round]) then Delivered(push.ranked[round])
    else FateFrom(push, round + 1, world)
  }

  /** How many peers it is sent to. */
  function AttemptsFrom(push: Push, round: nat, world: World): (n: nat)
    requires round <= |push.ranked|
    ensures round <= n <= |push.ranked|
    decreases |push.ranked| - round
  {
    if round == |push.ranked| || push.ranked[round] == push.item.source then round
    else if world.reaches(round, push.ranked[round]) then round + 1
    else AttemptsFrom(push, round + 1, world)
  }

  predicate Distinct(ranked: seq<ContentId>) {
    forall i, j :: 0 <= i < j < |ranked| ==> ranked[i] != ranked[j]
  }

  /** It is delivered to the last peer it is sent to and reached at no other, and never sent to its source. */
  lemma {:induction false} FateIsFair(push: Push, round: nat, world: World)
    requires round <= |push.ranked|
    ensures var n, fate := AttemptsFrom(push, round, world), FateFrom(push, round, world);
            && (forall k :: round <= k < n ==> push.ranked[k] != push.item.source)
            && (forall k :: round <= k < n - 1 ==> !world.reaches(k, push.ranked[k]))
            && (fate.Delivered? <==> n > round && world.reaches(n - 1, push.ranked[n - 1]))
            && (fate.Delivered? ==> fate.node == push.ranked[n - 1])
            && (fate == Returned <==> !fate.Delivered? && n < |push.ranked|)
            && (fate == Returned ==> push.ranked[n] == push.item.source)
            && (fate == Kept || fate == Queued <==> !fate.Delivered? && n == |push.ranked|)
            && (fate == Kept ==> world.connected(n, push.index) <= Peers(push.ranked))
            && (fate == Queued ==> !(world.connected(n, push.index) <= Peers(push.ranked)))
    decreases |push.ranked| - round
  {
    if round < |push.ranked| && push.ranked[round] != push.item.source && !world.reaches(round, push.ranked[round]) {
      FateIsFair(push, round + 1, world);
    }
  }

  // ---- What a batch does to each item -------------------------------------

  function Of(pushes: seq<Push>, i: nat): seq<Push> {
    if pushes == [] then [] else (if pushes[0].index == i then [pushes[0]] else []) + Of(pushes[1..], i)
  }

  function EndsOf(ends: seq<End>, i: nat): seq<Fate> {
    if ends == [] then [] else (if ends[0].push.index == i then [ends[0].fate] else []) + EndsOf(ends[1..], i)
  }

  /** The peers item `i` was sent to, in order. */
  function SentTo(exchanges: seq<Exchange>, i: nat): seq<ContentId> {
    if exchanges == [] then []
    else SentTo(exchanges[..|exchanges| - 1], i) +
         (if Of(exchanges[|exchanges| - 1].pushes, i) != [] then [exchanges[|exchanges| - 1].node] else [])
  }

  lemma {:induction false} OfConcat(a: seq<Push>, b: seq<Push>, i: nat)
    ensures Of(a + b, i) == Of(a, i) + Of(b, i)
  {
    if a == [] {
      assert a + b == b;
    } else {
      assert (a + b)[1..] == a[1..] + b;
      OfConcat(a[1..], b, i);
      Regrouped(if a[0].index == i then [a[0]] else [], Of(a[1..], i), Of(b, i));
    }
  }

  lemma {:induction false} EndsConcat(a: seq<End>, b: seq<End>, i: nat)
    ensures EndsOf(a + b, i) == EndsOf(a, i) + EndsOf(b, i)
  {
    if a == [] {
      assert a + b == b;
    } else {
      assert (a + b)[1..] == a[1..] + b;
      EndsConcat(a[1..], b, i);
      Regrouped(if a[0].push.index == i then [a[0].fate] else [], EndsOf(a[1..], i), EndsOf(b, i));
    }
  }

  lemma SentMore(exchanges: seq<Exchange>, e: Exchange, i: nat)
    ensures SentTo(exchanges + [e], i) == SentTo(exchanges, i) + if Of(e.pushes, i) != [] then [e.node] else []
  {
    assert (exchanges + [e])[..|exchanges|] == exchanges;
  }

  /** What is bound for each peer, peers in the order they were first chosen. */
  datatype Group = Group(node: ContentId, pushes: seq<Push>)

  function Bound(groups: seq<Group>, node: ContentId, push: Push): seq<Group> {
    if groups == [] then [Group(node, [push])]
    else if groups[0].node == node then [Group(node, groups[0].pushes + [push])] + groups[1..]
    else [groups[0]] + Bound(groups[1..], node, push)
  }

  function Flat(groups: seq<Group>): seq<Push> {
    if groups == [] then [] else groups[0].pushes + Flat(groups[1..])
  }

  lemma {:induction false} BoundAdds(groups: seq<Group>, node: ContentId, push: Push, i: nat)
    ensures if push.index == i then Of(Flat(groups), i) == [] ==> Of(Flat(Bound(groups, node, push)), i) == [push]
            else Of(Flat(Bound(groups, node, push)), i) == Of(Flat(groups), i)
  {
    assert Of([push], i) == if push.index == i then [push] else [];
    if groups == [] {
      assert Flat([Group(node, [push])]) == [push] + Flat([]);
    } else {
      var first, rest := groups[0].pushes, Flat(groups[1..]);
      OfConcat(first, rest, i);
      if groups[0].node == node {
        OfConcat(first, [push], i);
        OfConcat(first + [push], rest, i);
        assert ([Group(node, first + [push])] + groups[1..])[1..] == groups[1..];
      } else {
        BoundAdds(groups[1..], node, push, i);
        OfConcat(first, Flat(Bound(groups[1..], node, push)), i);
        assert ([groups[0]] + Bound(groups[1..], node, push))[1..] == Bound(groups[1..], node, push);
      }
    }
  }

  /** Each of a group is bound for its peer. */
  predicate IsBound(groups: seq<Group>, round: nat, known: nat -> bool) {
    forall g, k :: 0 <= g < |groups| && 0 <= k < |groups[g].pushes| ==>
      HasTried(groups[g].pushes[k], round, groups[g].node, known)
  }

  predicate HasTried(push: Push, round: nat, node: ContentId, known: nat -> bool) {
    known(push.index) && round < |push.ranked| && push.ranked[round] == node && node != push.item.source
  }

  lemma {:induction false} BoundIsBound(groups: seq<Group>, node: ContentId, push: Push, round: nat, known: nat -> bool)
    requires IsBound(groups, round, known) && HasTried(push, round, node, known)
    ensures IsBound(Bound(groups, node, push), round, known)
  {
    if groups != [] && groups[0].node != node {
      var rest := groups[1..];
      forall g, k | 0 <= g < |rest| && 0 <= k < |rest[g].pushes|
        ensures HasTried(rest[g].pushes[k], round, rest[g].node, known)
      {
        assert rest[g] == groups[g + 1];
      }
      BoundIsBound(rest, node, push, round, known);
      var more := Bound(rest, node, push);
      forall g, k | 0 <= g < |[groups[0]] + more| && 0 <= k < |([groups[0]] + more)[g].pushes|
        ensures HasTried(([groups[0]] + more)[g].pushes[k], round, ([groups[0]] + more)[g].node, known)
      {
        if g > 0 {
          assert ([groups[0]] + more)[g] == more[g - 1];
        }
      }
    }
  }

  // ---- Pushing a batch ----------------------------------------------------

  function PushOf(batch: seq<NewContent>, i: nat, world: World): Push
    requires i < |batch|
  {
    Push(i, batch[i], world.ranked(i), {})
  }

  /** What can be read of the batch, from its `from`-th on. */
  function Readable(batch: seq<NewContent>, from: nat, world: World): seq<Push>
    decreases |batch| - from
  {
    if from >= |batch| then []
    else (if world.readable(from) then [PushOf(batch, from, world)] else []) + Readable(batch, from + 1, world)
  }

  lemma {:induction false} ReadableOf(batch: seq<NewContent>, from: nat, world: World, i: nat)
    requires i < |batch| && from <= |batch|
    ensures Of(Readable(batch, from, world), i) == if from <= i && world.readable(i) then [PushOf(batch, i, world)] else []
    decreases |batch| - from
  {
    if from < |batch| {
      ReadableOf(batch, from + 1, world, i);
      var first := if world.readable(from) then [PushOf(batch, from, world)] else [];
      OfConcat(first, Readable(batch, from + 1, world), i);
      assert first != [] ==> first[1..] == [];
    }
  }

  function After(push: Push, round: nat): Push
    requires round <= |push.ranked|
  {
    push.(tried := Peers(push.ranked[..round]))
  }

  /** It has been sent to its first `round` peers, reaching none. */
  predicate Undecided(push: Push, round: nat, world: World) {
    && round <= |push.ranked| && push.tried == {}
    && FateFrom(push, 0, world) == FateFrom(push, round, world)
    && AttemptsFrom(push, 0, world) == AttemptsFrom(push, round, world)
  }

  predicate Pending(push: Push, round: nat, here: seq<Push>, fates: seq<Fate>, sent: seq<ContentId>, world: World) {
    Undecided(push, round, world) && here == [After(push, round)] && fates == [] && sent == push.ranked[..round]
  }

  predicate Chosen(push: Push, round: nat, here: seq<Push>, fates: seq<Fate>, sent: seq<ContentId>, world: World) {
    && round < |push.ranked| && push.ranked[round] != push.item.source
    && Undecided(push, round, world) && here == [After(push, round + 1)] && fates == [] && sent == push.ranked[..round]
  }

  predicate Decided(push: Push, fates: seq<Fate>, sent: seq<ContentId>, world: World) {
    fates == [FateFrom(push, 0, world)] && sent == push.ranked[..AttemptsFrom(push, 0, world)]
  }

  /** Where an item is as a round chooses peers: still to choose, bound for one, or done. */
  predicate Choosing(push: Push, round: nat, left: seq<Push>, bound: seq<Push>, fates: seq<Fate>, sent: seq<ContentId>,
                     world: World) {
    || (Pending(push, round, left, fates, sent, world) && bound == [])
    || (Chosen(push, round, bound, fates, sent, world) && left == [])
    || (Decided(push, fates, sent, world) && left == [] && bound == [])
  }

  /** Where an item is as a round sends: bound for a peer, left for the next round, or done. */
  predicate Sending(push: Push, round: nat, bound: seq<Push>, next: seq<Push>, fates: seq<Fate>, sent: seq<ContentId>,
                    world: World) {
    || (Chosen(push, round, bound, fates, sent, world) && next == [])
    || (Pending(push, round + 1, next, fates, sent, world) && bound == [])
    || (Decided(push, fates, sent, world) && bound == [] && next == [])
  }

  lemma {:induction false} UntriedIsNext(ranked: seq<ContentId>, round: nat, tried: set<ContentId>)
    requires Distinct(ranked) && round <= |ranked| && tried == Peers(ranked[..round])
    ensures Untried(ranked, tried) == if round == |ranked| then None else Some(ranked[round])
  {
    UntriedSkips(ranked, round, tried, 0);
  }

  lemma {:induction false} UntriedSkips(ranked: seq<ContentId>, round: nat, tried: set<ContentId>, from: nat)
    requires Distinct(ranked) && from <= round <= |ranked| && tried == Peers(ranked[..round])
    ensures Untried(ranked[from..], tried) == if round == |ranked| then None else Some(ranked[round])
    decreases round - from
  {
    if from < round {
      assert ranked[..round][from] == ranked[from];
      assert ranked[from..][1..] == ranked[from + 1..];
      UntriedSkips(ranked, round, tried, from + 1);
    } else if round < |ranked| {
      assert ranked[round] !in tried;
    }
  }

  lemma OneMorePeer(ranked: seq<ContentId>, round: nat)
    requires round < |ranked|
    ensures Peers(ranked[..round + 1]) == Peers(ranked[..round]) + {ranked[round]}
  {
    var one, more := ranked[..round], ranked[..round + 1];
    assert more[round] == ranked[round];
    forall node | node in Peers(one) ensures node in Peers(more) {
      var i :| 0 <= i < |one| && one[i] == node;
      assert more[i] == node;
    }
  }

  /** What choosing gives the item chosen for. */
  lemma ChoosesNext(push: Push, round: nat, world: World)
    requires Undecided(push, round, world) && Distinct(push.ranked)
    ensures var tried := NextPeer(After(push, round));
            if round == |push.ranked| then tried == Tried(After(push, round), None)
            else tried == Tried(After(push, round + 1), Some(push.ranked[round]))
  {
    UntriedIsNext(push.ranked, round, Peers(push.ranked[..round]));
    if round < |push.ranked| {
      OneMorePeer(push.ranked, round);
    }
  }

  function Requeued(queue: seq<NewContent>, ends: seq<End>): seq<NewContent> {
    if ends == [] then queue
    else
      var last := ends[|ends| - 1];
      Requeued(queue, ends[..|ends| - 1]) + if last.fate.Queued? then [last.push.item] else []
  }

  /** What is kept until a connection opens, with where each came from. */
  function KeptFor(unpushed: map<ContentId, ContentId>, ends: seq<End>): map<ContentId, ContentId> {
    if ends == [] then unpushed
    else
      var last, before := ends[|ends| - 1], KeptFor(unpushed, ends[..|ends| - 1]);
      if last.fate.Kept? then before[last.push.item.contentId := last.push.item.source] else before
  }

  /** Of an item: what of it is in each list, and what has come of it. */
  ghost predicate AllChoosing(batch: seq<NewContent>, round: nat, left: seq<Push>, groups: seq<Group>, ends: seq<End>,
                              log: seq<Exchange>, world: World) {
    forall i :: 0 <= i < |batch| && world.readable(i) ==>
      Choosing(PushOf(batch, i, world), round, Of(left, i), Of(Flat(groups), i), EndsOf(ends, i), SentTo(log, i), world)
  }

  ghost predicate AllSending(batch: seq<NewContent>, round: nat, groups: seq<Group>, next: seq<Push>, ends: seq<End>,
                             log: seq<Exchange>, world: World) {
    forall i :: 0 <= i < |batch| && world.readable(i) ==>
      Sending(PushOf(batch, i, world), round, Of(Flat(groups), i), Of(next, i), EndsOf(ends, i), SentTo(log, i), world)
  }

  /** Which places in the batch are of what could be read. */
  function InBatch(batch: seq<NewContent>, world: World): nat -> bool {
    (i: nat) => i < |batch| && world.readable(i)
  }

  /** Whether every push is one of the batch that could be read. */
  ghost predicate AllOf(batch: seq<NewContent>, pushes: seq<Push>, world: World) {
    forall k :: 0 <= k < |pushes| ==> InBatch(batch, world)(pushes[k].index)
  }

  lemma OfFirst(pushes: seq<Push>)
    requires pushes != []
    ensures Of(pushes, pushes[0].index) != [] && Of(pushes, pushes[0].index)[0] == pushes[0]
  {
  }

  /** What a round does with the push it chooses a peer for. */
  datatype Choice = Choice(groups: seq<Group>, ends: seq<End>)

  function Choose(round: nat, push: Push, groups: seq<Group>, ends: seq<End>, world: World): Choice {
    var tried := NextPeer(push);
    match tried.node
    case None =>
      var fate := if world.connected(round, push.index) <= tried.push.tried then Kept else Queued;
      Choice(groups, ends + [End(tried.push, fate)])
    case Some(node) =>
      if node == push.item.source then Choice(groups, ends + [End(tried.push, Returned)])
      else Choice(Bound(groups, node, tried.push), ends)
  }

  /** The push a round chooses for is bound for a peer, or has met its fate. */
  lemma ChoosesOwn(round: nat, push: Push, groups: seq<Group>, ends: seq<End>, sent: seq<ContentId>, world: World)
    requires Distinct(push.ranked) && round <= |push.ranked|
    requires Pending(push, round, [After(push, round)], EndsOf(ends, push.index), sent, world)
    requires Of(Flat(groups), push.index) == []
    ensures var choice := Choose(round, After(push, round), groups, ends, world);
            Choosing(push, round, [], Of(Flat(choice.groups), push.index), EndsOf(choice.ends, push.index), sent, world)
  {
    var choice := Choose(round, After(push, round), groups, ends, world);
    ChoosesNext(push, round, world);
    if choice.ends != ends {
      var end := choice.ends[|ends|];
      assert choice.ends == ends + [end];
      EndsConcat(ends, [end], push.index);
      assert push.ranked[..|push.ranked|] == push.ranked;
    } else {
      BoundAdds(groups, push.ranked[round], After(push, round + 1), push.index);
    }
  }

  /** Every other is left as it was. */
  lemma ChoosesNoOther(round: nat, push: Push, groups: seq<Group>, ends: seq<End>, world: World, i: nat)
    requires i != push.index
    ensures var choice := Choose(round, push, groups, ends, world);
            EndsOf(choice.ends, i) == EndsOf(ends, i) && Of(Flat(choice.groups), i) == Of(Flat(groups), i)
  {
    var choice := Choose(round, push, groups, ends, world);
    if choice.ends != ends {
      var end := choice.ends[|ends|];
      assert choice.ends == ends + [end];
      EndsConcat(ends, [end], i);
    } else {
      var tried := NextPeer(push);
      BoundAdds(groups, tried.node.value, tried.push, i);
    }
  }

  /** Choosing for the first item left moves it alone. */
  lemma ChoosesOne(batch: seq<NewContent>, round: nat, left: seq<Push>, groups: seq<Group>, ends: seq<End>,
                   log: seq<Exchange>, world: World)
    requires left != [] && AllOf(batch, left, world) && AllChoosing(batch, round, left, groups, ends, log, world)
    requires forall i :: 0 <= i < |batch| ==> Distinct(world.ranked(i))
    ensures var choice := Choose(round, left[0], groups, ends, world);
            AllChoosing(batch, round, left[1..], choice.groups, choice.ends, log, world)
  {
    var at := left[0].index;
    var choice := Choose(round, left[0], groups, ends, world);
    OfFirst(left);
    forall i | 0 <= i < |batch| && world.readable(i)
      ensures Choosing(PushOf(batch, i, world), round, Of(left[1..], i), Of(Flat(choice.groups), i),
                       EndsOf(choice.ends, i), SentTo(log, i), world)
    {
      var push := PushOf(batch, i, world);
      assert Choosing(push, round, Of(left, i), Of(Flat(groups), i), EndsOf(ends, i), SentTo(log, i), world);
      if i == at {
        assert Of(left, i) == [left[0]] + Of(left[1..], i);
        assert left[0] == After(push, round);
        ChoosesOwn(round, push, groups, ends, SentTo(log, i), world);
      } else {
        ChoosesNoOther(round, left[0], groups, ends, world, i);
      }
    }
  }

  /** Where the push it chooses for is bound, it may be sent there. */
  lemma ChoosesBound(batch: seq<NewContent>, round: nat, left: seq<Push>, groups: seq<Group>, ends: seq<End>,
                     log: seq<Exchange>, world: World)
    requires left != [] && AllOf(batch, left, world) && AllChoosing(batch, round, left, groups, ends, log, world)
    requires Distinct(world.ranked(left[0].index)) && IsBound(groups, round, InBatch(batch, world))
    ensures IsBound(Choose(round, left[0], groups, ends, world).groups, round, InBatch(batch, world))
    ensures left[0] == After(PushOf(batch, left[0].index, world), round) && round <= |left[0].ranked|
  {
    var push := PushOf(batch, left[0].index, world);
    OfFirst(left);
    assert Choosing(push, round, Of(left, push.index), Of(Flat(groups), push.index), EndsOf(ends, push.index),
                    SentTo(log, push.index), world);
    ChoosesNext(push, round, world);
    var tried := NextPeer(left[0]);
    if tried.node.Some? && tried.node.value != push.item.source {
      BoundIsBound(groups, tried.node.value, tried.push, round, InBatch(batch, world));
    }
  }

  function DeliveredAll(pushes: seq<Push>, node: ContentId): seq<End> {
    if pushes == [] then [] else [End(pushes[0], Delivered(node))] + DeliveredAll(pushes[1..], node)
  }

  lemma {:induction false} DeliveredOf(pushes: seq<Push>, node: ContentId, i: nat)
    ensures |EndsOf(DeliveredAll(pushes, node), i)| == |Of(pushes, i)|
    ensures forall k :: 0 <= k < |Of(pushes, i)| ==> EndsOf(DeliveredAll(pushes, node), i)[k] == Delivered(node)
  {
    if pushes != [] {
      DeliveredOf(pushes[1..], node, i);
      assert DeliveredAll(pushes, node)[1..] == DeliveredAll(pushes[1..], node);
    }
  }

  lemma {:induction false} OfBound(pushes: seq<Push>, i: nat, round: nat, node: ContentId, known: nat -> bool)
    requires forall k :: 0 <= k < |pushes| ==> HasTried(pushes[k], round, node, known)
    ensures forall k :: 0 <= k < |Of(pushes, i)| ==> HasTried(Of(pushes, i)[k], round, node, known)
  {
    if pushes != [] {
      OfBound(pushes[1..], i, round, node, known);
    }
  }

  /** Sending to the first peer settles what was bound for it, or leaves it for the next round. */
  lemma SendsOne(batch: seq<NewContent>, round: nat, groups: seq<Group>, next: seq<Push>, ends: seq<End>,
                 log: seq<Exchange>, world: World)
    requires groups != [] && IsBound(groups, round, InBatch(batch, world)) && AllSending(batch, round, groups, next, ends, log, world)
    ensures var group := groups[0];
            var sent := log + [Exchange(round, group.node, group.pushes)];
            if world.reaches(round, group.node) then
              AllSending(batch, round, groups[1..], next, ends + DeliveredAll(group.pushes, group.node), sent, world)
            else
              AllSending(batch, round, groups[1..], next + group.pushes, ends, sent, world)
  {
    var group := groups[0];
    forall i | 0 <= i < |batch| && world.readable(i)
      ensures var sent := log + [Exchange(round, group.node, group.pushes)];
              var push := PushOf(batch, i, world);
              if world.reaches(round, group.node) then
                Sending(push, round, Of(Flat(groups[1..]), i), Of(next, i),
                        EndsOf(ends + DeliveredAll(group.pushes, group.node), i), SentTo(sent, i), world)
              else
                Sending(push, round, Of(Flat(groups[1..]), i), Of(next + group.pushes, i), EndsOf(ends, i),
                        SentTo(sent, i), world)
    {
      SendsItem(batch, round, groups, next, ends, log, world, i);
    }
  }

  lemma SendsItem(batch: seq<NewContent>, round: nat, groups: seq<Group>, next: seq<Push>, ends: seq<End>,
                  log: seq<Exchange>, world: World, i: nat)
    requires groups != [] && IsBound(groups, round, InBatch(batch, world)) && i < |batch|
    requires Sending(PushOf(batch, i, world), round, Of(Flat(groups), i), Of(next, i), EndsOf(ends, i),
                     SentTo(log, i), world)
    ensures var group := groups[0];
            var sent := log + [Exchange(round, group.node, group.pushes)];
            var push := PushOf(batch, i, world);
            if world.reaches(round, group.node) then
              Sending(push, round, Of(Flat(groups[1..]), i), Of(next, i),
                      EndsOf(ends + DeliveredAll(group.pushes, group.node), i), SentTo(sent, i), world)
            else
              Sending(push, round, Of(Flat(groups[1..]), i), Of(next + group.pushes, i), EndsOf(ends, i),
                      SentTo(sent, i), world)
  {
    var group, push := groups[0], PushOf(batch, i, world);
    OfConcat(group.pushes, Flat(groups[1..]), i);
    OfConcat(next, group.pushes, i);
    EndsConcat(ends, DeliveredAll(group.pushes, group.node), i);
    DeliveredOf(group.pushes, group.node, i);
    OfBound(group.pushes, i, round, group.node, InBatch(batch, world));
    SentMore(log, Exchange(round, group.node, group.pushes), i);
    SendsTo(push, round, Of(group.pushes, i), Of(Flat(groups[1..]), i), Of(next, i), EndsOf(ends, i), SentTo(log, i),
            group.node, world, InBatch(batch, world));
    assert Of(group.pushes, i) == [] ==> EndsOf(DeliveredAll(group.pushes, group.node), i) == [];
    assert |Of(group.pushes, i)| == 1 ==> EndsOf(DeliveredAll(group.pushes, group.node), i) == [Delivered(group.node)];
  }

  /** What sending to a peer does to an item, of which `here` is bound for it. */
  lemma SendsTo(push: Push, round: nat, here: seq<Push>, bound: seq<Push>, next: seq<Push>, fates: seq<Fate>,
                sent: seq<ContentId>, node: ContentId, world: World, known: nat -> bool)
    requires Sending(push, round, here + bound, next, fates, sent, world)
    requires forall k :: 0 <= k < |here| ==> HasTried(here[k], round, node, known)
    ensures |here| <= 1
    ensures here == [] ==> Sending(push, round, bound, next, fates, sent, world)
    ensures here != [] && world.reaches(round, node) ==>
              Sending(push, round, bound, next, fates + [Delivered(node)], sent + [node], world)
    ensures here != [] && !world.reaches(round, node) ==>
              Sending(push, round, bound, next + here, fates, sent + [node], world)
  {
    if here == [] {
      assert here + bound == bound;
    } else {
      assert (here + bound)[0] == here[0] == After(push, round + 1) && bound == [];
      assert node == push.ranked[round];
      assert push.ranked[..round] + [node] == push.ranked[..round + 1];
      assert next + here == here;
    }
  }

  lemma NothingSent(batch: seq<NewContent>, world: World)
    ensures AllChoosing(batch, 0, Readable(batch, 0, world), [], [], [], world)
    ensures AllOf(batch, Readable(batch, 0, world), world)
  {
    forall i | 0 <= i < |batch| && world.readable(i)
      ensures Choosing(PushOf(batch, i, world), 0, Of(Readable(batch, 0, world), i), Of(Flat([]), i), EndsOf([], i),
                       SentTo([], i), world)
    {
      ReadableOf(batch, 0, world, i);
      var push := PushOf(batch, i, world);
      assert push.ranked[..0] == [] && After(push, 0) == push;
    }
    AllOfReadable(batch, 0, world);
  }

  lemma {:induction false} AllOfReadable(batch: seq<NewContent>, from: nat, world: World)
    ensures AllOf(batch, Readable(batch, from, world), world)
    decreases |batch| - from
  {
    if from < |batch| {
      AllOfReadable(batch, from + 1, world);
    }
  }

  function Longest(batch: seq<NewContent>, world: World): nat {
    if batch == [] then 0
    else
      var last := |world.ranked(|batch| - 1)|;
      var before := Longest(batch[..|batch| - 1], world);
      if last > before then last else before
  }

  lemma {:induction false} NoneIsLonger(batch: seq<NewContent>, world: World, i: nat)
    requires i < |batch|
    ensures |world.ranked(i)| <= Longest(batch, world)
  {
    if i < |batch| - 1 {
      NoneIsLonger(batch[..|batch| - 1], world, i);
    }
  }

  lemma {:induction false} DeliveredKeepsNone(queue: seq<NewContent>, unpushed: map<ContentId, ContentId>,
                                              ends: seq<End>, pushes: seq<Push>, node: ContentId)
    ensures Requeued(queue, ends + DeliveredAll(pushes, node)) == Requeued(queue, ends)
    ensures KeptFor(unpushed, ends + DeliveredAll(pushes, node)) == KeptFor(unpushed, ends)
    decreases |pushes|
  {
    if pushes == [] {
      assert ends + [] == ends;
    } else {
      var first := End(pushes[0], Delivered(node));
      assert (ends + [first])[..|ends|] == ends;
      assert ends + DeliveredAll(pushes, node) == (ends + [first]) + DeliveredAll(pushes[1..], node);
      DeliveredKeepsNone(queue, unpushed, ends + [first], pushes[1..], node);
    }
  }

  /** What a round chose for is what it then sends. */
  lemma ChosenAreSent(batch: seq<NewContent>, round: nat, groups: seq<Group>, ends: seq<End>, log: seq<Exchange>,
                      world: World)
    requires AllChoosing(batch, round, [], groups, ends, log, world)
    ensures AllSending(batch, round, groups, [], ends, log, world)
  {
    forall i | 0 <= i < |batch| && world.readable(i)
      ensures Sending(PushOf(batch, i, world), round, Of(Flat(groups), i), Of([], i), EndsOf(ends, i), SentTo(log, i),
                      world)
    {
      assert Choosing(PushOf(batch, i, world), round, Of([], i), Of(Flat(groups), i), EndsOf(ends, i), SentTo(log, i),
                      world);
    }
  }

  /** What a round could not send is what the next one chooses for, with peers left to try or none. */
  lemma SentAreLeft(batch: seq<NewContent>, round: nat, next: seq<Push>, ends: seq<End>, log: seq<Exchange>,
                    world: World)
    requires AllSending(batch, round, [], next, ends, log, world) && AllOf(batch, next, world)
    ensures AllChoosing(batch, round + 1, next, [], ends, log, world)
    ensures next != [] ==> round + 1 <= Longest(batch, world)
  {
    forall i | 0 <= i < |batch| && world.readable(i)
      ensures Choosing(PushOf(batch, i, world), round + 1, Of(next, i), Of(Flat([]), i), EndsOf(ends, i),
                       SentTo(log, i), world)
    {
      assert Sending(PushOf(batch, i, world), round, Of(Flat([]), i), Of(next, i), EndsOf(ends, i), SentTo(log, i),
                     world);
    }
    if next != [] {
      var i := next[0].index;
      OfFirst(next);
      assert Sending(PushOf(batch, i, world), round, Of(Flat([]), i), Of(next, i), EndsOf(ends, i), SentTo(log, i),
                     world);
      NoneIsLonger(batch, world, i);
    }
  }

  // ---- One exchange for each peer, of the batch's own items ---------------

  /** Whether what is bound for one peer is bound together. */
  predicate OneForEach(groups: seq<Group>) {
    forall i, j :: 0 <= i < j < |groups| ==> groups[i].node != groups[j].node
  }

  lemma {:induction false} BoundOnce(groups: seq<Group>, node: ContentId, push: Push)
    requires OneForEach(groups)
    ensures OneForEach(Bound(groups, node, push))
    ensures forall i :: 0 <= i < |Bound(groups, node, push)| ==>
              || Bound(groups, node, push)[i].node == node
              || exists j :: 0 <= j < |groups| && groups[j].node == Bound(groups, node, push)[i].node
    decreases |groups|
  {
    if groups != [] && groups[0].node != node {
      BoundOnce(groups[1..], node, push);
    }
  }

  /** Whether no peer is sent to twice in a round, and none before `round` is over in it. */
  predicate OneExchangeEach(log: seq<Exchange>) {
    forall i, j :: 0 <= i < j < |log| && log[i].round == log[j].round ==> log[i].node != log[j].node
  }

  predicate SentBefore(log: seq<Exchange>, round: nat) {
    forall k :: 0 <= k < |log| ==> log[k].round < round
  }

  /** Whether `log` is of rounds before, and of the first `g` groups of this one. */
  predicate SentSoFar(log: seq<Exchange>, sent: seq<Exchange>, round: nat, groups: seq<Group>, g: nat)
    requires g <= |groups|
  {
    && |log| == |sent| + g && sent <= log
    && forall k :: |sent| <= k < |log| ==> log[k].round == round && log[k].node == groups[k - |sent|].node
  }

  lemma OneMoreSent(log: seq<Exchange>, sent: seq<Exchange>, round: nat, groups: seq<Group>, g: nat)
    requires g < |groups| && SentSoFar(log, sent, round, groups, g)
    ensures SentSoFar(log + [Exchange(round, groups[g].node, groups[g].pushes)], sent, round, groups, g + 1)
  {
  }

  lemma SentOnce(log: seq<Exchange>, sent: seq<Exchange>, round: nat, groups: seq<Group>)
    requires SentSoFar(log, sent, round, groups, |groups|) && OneForEach(groups)
    requires OneExchangeEach(sent) && SentBefore(sent, round)
    ensures OneExchangeEach(log) && SentBefore(log, round + 1)
  {
  }

  /** Whether a push is of what is in the batch at its place, and could be read. */
  predicate IsOwn(batch: seq<NewContent>, push: Push, world: World) {
    push.index < |batch| && world.readable(push.index) && push.item == batch[push.index]
  }

  predicate AllOwn(batch: seq<NewContent>, pushes: seq<Push>, world: World) {
    forall k :: 0 <= k < |pushes| ==> IsOwn(batch, pushes[k], world)
  }

  predicate GroupsOwn(batch: seq<NewContent>, groups: seq<Group>, world: World) {
    forall g :: 0 <= g < |groups| ==> AllOwn(batch, groups[g].pushes, world)
  }

  predicate EndsOwn(batch: seq<NewContent>, ends: seq<End>, world: World) {
    forall k :: 0 <= k < |ends| ==> IsOwn(batch, ends[k].push, world)
  }

  lemma {:induction false} ReadableOwn(batch: seq<NewContent>, from: nat, world: World)
    requires from <= |batch|
    ensures AllOwn(batch, Readable(batch, from, world), world)
    decreases |batch| - from
  {
    if from < |batch| {
      ReadableOwn(batch, from + 1, world);
    }
  }

  lemma {:induction false} BoundOwn(batch: seq<NewContent>, groups: seq<Group>, node: ContentId, push: Push, world: World)
    requires GroupsOwn(batch, groups, world) && IsOwn(batch, push, world)
    ensures GroupsOwn(batch, Bound(groups, node, push), world)
    decreases |groups|
  {
    if groups != [] {
      assert AllOwn(batch, groups[0].pushes, world);
      if groups[0].node != node {
        BoundOwn(batch, groups[1..], node, push, world);
      }
    }
  }

  /** Choosing for a push binds it with what else goes to its peer, or ends it. */
  lemma ChooseOwn(batch: seq<NewContent>, round: nat, push: Push, groups: seq<Group>, ends: seq<End>, world: World)
    requires GroupsOwn(batch, groups, world) && EndsOwn(batch, ends, world) && IsOwn(batch, push, world) && OneForEach(groups)
    ensures var choice := Choose(round, push, groups, ends, world);
            GroupsOwn(batch, choice.groups, world) && EndsOwn(batch, choice.ends, world) && OneForEach(choice.groups)
  {
    var tried := NextPeer(push);
    if tried.node.Some? {
      BoundOwn(batch, groups, tried.node.value, tried.push, world);
      BoundOnce(groups, tried.node.value, tried.push);
    }
  }

  lemma {:induction false} DeliveredOwn(batch: seq<NewContent>, pushes: seq<Push>, node: ContentId, world: World)
    requires AllOwn(batch, pushes, world)
    ensures EndsOwn(batch, DeliveredAll(pushes, node), world)
    decreases |pushes|
  {
    if pushes != [] {
      DeliveredOwn(batch, pushes[1..], node, world);
    }
  }

  /** Sent to its peer, a group is delivered or left, and still the batch's own. */
  lemma SentOwn(batch: seq<NewContent>, groups: seq<Group>, g: nat, next: seq<Push>, ends: seq<End>, world: World)
    requires g < |groups| && GroupsOwn(batch, groups, world) && AllOwn(batch, next, world) && EndsOwn(batch, ends, world)
    ensures EndsOwn(batch, ends + DeliveredAll(groups[g].pushes, groups[g].node), world)
    ensures AllOwn(batch, next + groups[g].pushes, world)
  {
    assert AllOwn(batch, groups[g].pushes, world);
    DeliveredOwn(batch, groups[g].pushes, groups[g].node, world);
  }

  /** What is kept is what was, and what met that fate. */
  lemma {:induction false} KeptExactly(unpushed: map<ContentId, ContentId>, ends: seq<End>, id: ContentId)
    ensures id in KeptFor(unpushed, ends) <==>
            id in unpushed || exists k :: 0 <= k < |ends| && ends[k].fate.Kept? && ends[k].push.item.contentId == id
    ensures id in KeptFor(unpushed, ends) ==>
              || (id in unpushed && KeptFor(unpushed, ends)[id] == unpushed[id])
              || exists k :: 0 <= k < |ends| && ends[k].fate.Kept? && ends[k].push.item == NewContent(id, KeptFor(unpushed, ends)[id])
    decreases |ends|
  {
    if ends != [] {
      var before, last := ends[..|ends| - 1], ends[|ends| - 1];
      KeptExactly(unpushed, before, id);
      assert ends == before + [last];
      if last.fate.Kept? && last.push.item.contentId == id {
        assert ends[|ends| - 1].fate.Kept?;
        assert last.push.item == NewContent(id, KeptFor(unpushed, ends)[id]);
      }
    }
  }

  /** With none left to choose for or to send, each has met its fate. */
  lemma AllAreDecided(batch: seq<NewContent>, round: nat, ends: seq<End>, log: seq<Exchange>, world: World)
    requires AllChoosing(batch, round, [], [], ends, log, world)
    ensures forall i :: 0 <= i < |batch| && world.readable(i) ==>
              Decided(PushOf(batch, i, world), EndsOf(ends, i), SentTo(log, i), world)
  {
  }

  lemma ChoosesFor(batch: seq<NewContent>, round: nat, left: seq<Push>, groups: seq<Group>, ends: seq<End>,
                   log: seq<Exchange>, world: World)
    requires left != [] && AllOf(batch, left, world) && AllChoosing(batch, round, left, groups, ends, log, world)
    requires Ranked(batch, world) && IsBound(groups, round, InBatch(batch, world))
    requires GroupsOwn(batch, groups, world) && EndsOwn(batch, ends, world) && AllOwn(batch, left, world) && OneForEach(groups)
    ensures var choice := Choose(round, left[0], groups, ends, world);
            && AllChoosing(batch, round, left[1..], choice.groups, choice.ends, log, world)
            && IsBound(choice.groups, round, InBatch(batch, world))
            && GroupsOwn(batch, choice.groups, world) && EndsOwn(batch, choice.ends, world) && OneForEach(choice.groups)
  {
    ChoosesOne(batch, round, left, groups, ends, log, world);
    ChoosesBound(batch, round, left, groups, ends, log, world);
    ChooseOwn(batch, round, left[0], groups, ends, world);
  }

  predicate Ranked(batch: seq<NewContent>, world: World) {
    forall i :: 0 <= i < |batch| ==> Distinct(world.ranked(i))
  }

  class Pushing {
    var queue: seq<NewContent>
    var unpushed: map<ContentId, ContentId>

    ghost predicate Holds(queue: seq<NewContent>, unpushed: map<ContentId, ContentId>, ends: seq<End>)
      reads this
    {
      this.queue == Requeued(queue, ends) && this.unpushed == KeptFor(unpushed, ends)
    }

    /** Keeps what `push` could not be sent, or queues it again as another peer has connected. */
    method WaitForPeer(push: Push, round: nat, world: World, ghost ends: seq<End>,
                       ghost wasQueued: seq<NewContent>, ghost wasUnpushed: map<ContentId, ContentId>)
      returns (fate: Fate)
      requires Holds(wasQueued, wasUnpushed, ends)
      modifies this
      ensures fate == if world.connected(round, push.index) <= push.tried then Kept else Queued
      ensures Holds(wasQueued, wasUnpushed, ends + [End(push, fate)])
    {
      fate := if world.connected(round, push.index) <= push.tried then Kept else Queued;
      assert (ends + [End(push, fate)])[..|ends|] == ends;
      if fate.Kept? {
        unpushed := unpushed[push.item.contentId := push.item.source];
      } else {
        queue := queue + [push.item];
      }
    }

    /** Binds `push` for its next peer, if it goes any further. */
    method NextPeerFor(round: nat, push: Push, before: seq<Group>, met: seq<End>, world: World,
                       ghost wasQueued: seq<NewContent>, ghost wasUnpushed: map<ContentId, ContentId>)
      returns (groups: seq<Group>, ends: seq<End>)
      requires Holds(wasQueued, wasUnpushed, met)
      modifies this
      ensures Choice(groups, ends) == Choose(round, push, before, met, world)
      ensures Holds(wasQueued, wasUnpushed, ends)
    {
      groups, ends := before, met;
      var tried := NextPeer(push);
      if tried.node.None? {
        var fate := WaitForPeer(tried.push, round, world, met, wasQueued, wasUnpushed);
        ends := met + [End(tried.push, fate)];
      } else if tried.node.value == push.item.source {
        ends := met + [End(tried.push, Returned)];
        assert ends[..|met|] == met;
      } else {
        groups := Bound(before, tried.node.value, tried.push);
      }
    }

    /** The peers of a round, chosen for each item left; what goes no further has met its fate. */
    method ChoosePeers(batch: seq<NewContent>, round: nat, pending: seq<Push>, before: seq<End>, world: World,
                       ghost log: seq<Exchange>, ghost wasQueued: seq<NewContent>,
                       ghost wasUnpushed: map<ContentId, ContentId>)
      returns (groups: seq<Group>, ends: seq<End>)
      requires Ranked(batch, world) && AllOf(batch, pending, world)
      requires AllChoosing(batch, round, pending, [], before, log, world)
      requires Holds(wasQueued, wasUnpushed, before) && AllOwn(batch, pending, world) && EndsOwn(batch, before, world)
      modifies this
      ensures AllChoosing(batch, round, [], groups, ends, log, world) && IsBound(groups, round, InBatch(batch, world))
      ensures Holds(wasQueued, wasUnpushed, ends)
      ensures GroupsOwn(batch, groups, world) && EndsOwn(batch, ends, world) && OneForEach(groups)
    {
      groups, ends := [], before;
      var k := 0;
      while k < |pending|
        invariant 0 <= k <= |pending|
        invariant AllChoosing(batch, round, pending[k..], groups, ends, log, world)
        invariant IsBound(groups, round, InBatch(batch, world)) && Holds(wasQueued, wasUnpushed, ends)
        invariant GroupsOwn(batch, groups, world) && EndsOwn(batch, ends, world) && OneForEach(groups)
      {
        var left := pending[k..];
        assert left[1..] == pending[k + 1..] && left[0] == pending[k];
        ChoosesFor(batch, round, left, groups, ends, log, world);
        groups, ends := NextPeerFor(round, pending[k], groups, ends, world, wasQueued, wasUnpushed);
        k := k + 1;
      }
      assert pending[k..] == [];
    }

    /** Sends each peer what is bound for it, giving what reached none. */
    method SendAll(batch: seq<NewContent>, round: nat, groups: seq<Group>, before: seq<End>, sent: seq<Exchange>,
                   world: World, ghost wasQueued: seq<NewContent>, ghost wasUnpushed: map<ContentId, ContentId>)
      returns (next: seq<Push>, ends: seq<End>, log: seq<Exchange>)
      requires IsBound(groups, round, InBatch(batch, world))
      requires AllSending(batch, round, groups, [], before, sent, world)
      requires GroupsOwn(batch, groups, world) && EndsOwn(batch, before, world) && OneForEach(groups)
      requires OneExchangeEach(sent) && SentBefore(sent, round)
      ensures AllOwn(batch, next, world) && EndsOwn(batch, ends, world)
      ensures OneExchangeEach(log) && SentBefore(log, round + 1)
      ensures AllSending(batch, round, [], next, ends, log, world) && AllOf(batch, next, world)
      ensures Requeued(wasQueued, ends) == Requeued(wasQueued, before)
      ensures KeptFor(wasUnpushed, ends) == KeptFor(wasUnpushed, before)
    {
      next, ends, log := [], before, sent;
      var g := 0;
      while g < |groups|
        invariant 0 <= g <= |groups| && AllOf(batch, next, world)
        invariant AllSending(batch, round, groups[g..], next, ends, log, world)
        invariant Requeued(wasQueued, ends) == Requeued(wasQueued, before)
        invariant KeptFor(wasUnpushed, ends) == KeptFor(wasUnpushed, before)
        invariant AllOwn(batch, next, world) && EndsOwn(batch, ends, world) && SentSoFar(log, sent, round, groups, g)
      {
        var group := groups[g];
        assert groups[g..][0] == group && groups[g..][1..] == groups[g + 1..];
        SendsOne(batch, round, groups[g..], next, ends, log, world);
        SentOwn(batch, groups, g, next, ends, world);
        OneMoreSent(log, sent, round, groups, g);
        log := log + [Exchange(round, group.node, group.pushes)];
        if world.reaches(round, group.node) {
          DeliveredKeepsNone(wasQueued, wasUnpushed, ends, group.pushes, group.node);
          ends := ends + DeliveredAll(group.pushes, group.node);
        } else {
          next := next + group.pushes;
        }
        g := g + 1;
      }
      assert groups[g..] == [];
      SentOnce(log, sent, round, groups);
    }

    /** Chooses a peer for each item left, and sends each what is bound for it. */
    method OneRound(batch: seq<NewContent>, round: nat, pending: seq<Push>, before: seq<End>, sent: seq<Exchange>,
                    world: World, ghost wasQueued: seq<NewContent>, ghost wasUnpushed: map<ContentId, ContentId>)
      returns (next: seq<Push>, ends: seq<End>, log: seq<Exchange>)
      requires Ranked(batch, world) && AllOf(batch, pending, world)
      requires AllChoosing(batch, round, pending, [], before, sent, world)
      requires Holds(wasQueued, wasUnpushed, before) && AllOwn(batch, pending, world) && EndsOwn(batch, before, world)
      requires OneExchangeEach(sent) && SentBefore(sent, round)
      modifies this
      ensures AllOf(batch, next, world) && AllChoosing(batch, round + 1, next, [], ends, log, world)
      ensures Holds(wasQueued, wasUnpushed, ends) && AllOwn(batch, next, world) && EndsOwn(batch, ends, world)
      ensures OneExchangeEach(log) && SentBefore(log, round + 1)
      ensures next != [] ==> round + 1 <= Longest(batch, world)
    {
      var groups;
      groups, ends := ChoosePeers(batch, round, pending, before, world, sent, wasQueued, wasUnpushed);
      ChosenAreSent(batch, round, groups, ends, sent, world);
      next, ends, log := SendAll(batch, round, groups, ends, sent, world, wasQueued, wasUnpushed);
      SentAreLeft(batch, round, next, ends, log, world);
    }

    /**
     Pushes a batch. Each item that can be read meets exactly one fate, which is the one it
     would meet by itself, and is sent to the first peers of its ranking, once each; and what
     goes to one peer goes in one exchange. Nothing else meets a fate. What is kept and what is
     queued again is what met those fates.
     */
    method PushBatch(batch: seq<NewContent>, world: World) returns (ends: seq<End>, log: seq<Exchange>)
      requires Ranked(batch, world)
      modifies this
      ensures forall i :: 0 <= i < |batch| && world.readable(i) ==>
                Decided(PushOf(batch, i, world), EndsOf(ends, i), SentTo(log, i), world)
      ensures Holds(old(queue), old(unpushed), ends) && EndsOwn(batch, ends, world) && OneExchangeEach(log)
    {
      ends, log := [], [];
      var pending := Readable(batch, 0, world);
      NothingSent(batch, world);
      ReadableOwn(batch, 0, world);
      var round := 0;
      while pending != []
        invariant AllOf(batch, pending, world) && AllChoosing(batch, round, pending, [], ends, log, world)
        invariant Holds(old(queue), old(unpushed), ends)
        invariant AllOwn(batch, pending, world) && EndsOwn(batch, ends, world)
        invariant OneExchangeEach(log) && SentBefore(log, round)
        invariant pending != [] ==> round <= Longest(batch, world)
        decreases Longest(batch, world) + 1 - round
      {
        pending, ends, log := OneRound(batch, round, pending, ends, log, world, old(queue), old(unpushed));
        round := round + 1;
      }
      AllAreDecided(batch, round, ends, log, world);
    }
  }
}
