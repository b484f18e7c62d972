/** The recursive definition of an overlay, and that a reader's walk computes it. */
module Meaning {
  import opened Wrappers
  import opened PartPaths
  import opened Shapes
  import opened Overlay

  type Rank = PartPath -> nat

  /** One more than the highest rank `names` name. */
  ghost function Ceiling(r: Reader, rank: Rank, names: seq<string>): nat {
    if names == [] then 0
    else
      var rest := Ceiling(r, rank, names[1..]);
      match r.parse(names[0])
      case Failure(_) => rest
      case Success(p) => if rank(p) >= rest then rank(p) + 1 else rest
  }

  /** No extension leads back to itself: each ranks beneath what names it. */
  ghost predicate Acyclic(r: Reader, rank: Rank) {
    forall p :: Ceiling(r, rank, ExtensionsOf(r, p)) <= rank(p)
  }

  /** Everything the bundle at `p` holds, tombstones kept: its entries over its extensions'. */
  ghost function Whole(r: Reader, rank: Rank, p: PartPath): Layer
    requires Acyclic(r, rank)
    decreases rank(p), 1, 0
  {
    Chain(r, rank, ExtensionsOf(r, p)) + EntriesOf(r, p)
  }

  /** `names` overlaid: the last is laid first, and each before it replaces whole entries. */
  ghost function Chain(r: Reader, rank: Rank, names: seq<string>): Layer
    requires Acyclic(r, rank)
    decreases Ceiling(r, rank, names), 0, |names|
  {
    if names == [] then map[]
    else
      var beneath := Chain(r, rank, names[1..]);
      match r.parse(names[0])
      case Failure(_) => beneath
      case Success(p) => beneath + Whole(r, rank, p)
  }

  lemma {:induction false} CeilingOf(r: Reader, rank: Rank, names: seq<string>, i: nat)
    requires i < |names| && r.parse(names[i]).Success?
    ensures rank(r.parse(names[i]).value) < Ceiling(r, rank, names)
  {
    if i > 0 {
      CeilingOf(r, rank, names[1..], i - 1);
    }
  }

  lemma {:induction false} ChainOfConcat(r: Reader, rank: Rank, above: seq<string>, below: seq<string>)
    requires Acyclic(r, rank)
    ensures Chain(r, rank, above + below) == Chain(r, rank, below) + Chain(r, rank, above)
  {
    if above == [] {
      assert above + below == below;
    } else {
      ChainOfConcat(r, rank, above[1..], below);
      assert (above + below)[1..] == above[1..] + below;
    }
  }

  /** How many of the names left still belong beneath each path visited. */
  type Open = map<PartPath, nat>

  /** Everything `p` holds is in, or will be by the first `left` names to do. */
  ghost predicate Covered(r: Reader, rank: Rank, t: Trail, p: PartPath, left: nat)
    requires Acyclic(r, rank)
  {
    && left <= |t.todo|
    && Ceiling(r, rank, t.todo[..left]) <= rank(p)
    && Whole(r, rank, p).Keys <= t.resolved.Keys + Chain(r, rank, t.todo[..left]).Keys
  }

  ghost predicate AllCovered(r: Reader, rank: Rank, t: Trail, open: Open)
    requires Acyclic(r, rank)
  {
    open.Keys == t.visited && forall p :: p in open ==> Covered(r, rank, t, p, open[p])
  }

  /** What a walk at `t` is still to give. */
  ghost function Promised(r: Reader, rank: Rank, t: Trail): Layer
    requires Acyclic(r, rank)
  {
    Chain(r, rank, t.todo) + t.resolved
  }

  /** How many names are left beneath each path once the first is done, replaced by `more`. */
  ghost function Moved(open: Open, more: nat): Open {
    map p | p in open :: if open[p] == 0 then 0 else open[p] - 1 + more
  }

  lemma {:induction false} CeilingOfConcat(r: Reader, rank: Rank, above: seq<string>, below: seq<string>, bound: nat)
    ensures Ceiling(r, rank, above + below) <= bound <==>
            Ceiling(r, rank, above) <= bound && Ceiling(r, rank, below) <= bound
  {
    if above == [] {
      assert above + below == below;
    } else {
      CeilingOfConcat(r, rank, above[1..], below, bound);
      assert (above + below)[1..] == above[1..] + below;
    }
  }

  lemma HeadOf(todo: seq<string>, left: nat)
    requires 0 < left <= |todo|
    ensures todo[..left] == [todo[0]] + todo[1..][..left - 1]
  {
  }

  lemma ChainStep(r: Reader, rank: Rank, names: seq<string>, p: PartPath)
    requires Acyclic(r, rank) && names != [] && r.parse(names[0]) == Success(p)
    ensures Chain(r, rank, names) == Chain(r, rank, names[1..]) + Whole(r, rank, p)
    ensures rank(p) < Ceiling(r, rank, names)
    ensures Ceiling(r, rank, names[1..]) <= Ceiling(r, rank, names)
  {
  }

  lemma AddingNothing(beneath: Layer, whole: Layer, resolved: Layer)
    requires whole.Keys <= resolved.Keys
    ensures (beneath + whole) + resolved == beneath + resolved
  {
  }

  /** An extension met again, beneath nothing left, has nothing left to add. */
  lemma SkipCovers(r: Reader, rank: Rank, t: Trail, p: PartPath, q: PartPath, left: nat)
    requires Acyclic(r, rank) && Covered(r, rank, t, q, left)
    requires t.todo != [] && r.parse(t.todo[0]) == Success(p)
    requires Whole(r, rank, p).Keys <= t.resolved.Keys
    ensures Covered(r, rank, t.(todo := t.todo[1..]), q, if left == 0 then 0 else left - 1)
  {
    if left > 0 {
      HeadOf(t.todo, left);
      assert t.todo[..left][1..] == t.todo[1..][..left - 1];
      ChainStep(r, rank, t.todo[..left], p);
    } else {
      assert t.todo[1..][..0] == t.todo[..0];
    }
  }

  lemma SkipKeeps(r: Reader, rank: Rank, t: Trail, open: Open, p: PartPath)
    requires Acyclic(r, rank) && AllCovered(r, rank, t, open)
    requires t.todo != [] && r.parse(t.todo[0]) == Success(p) && p in t.visited
    ensures AllCovered(r, rank, t.(todo := t.todo[1..]), Moved(open, 0))
    ensures Promised(r, rank, t.(todo := t.todo[1..])) == Promised(r, rank, t)
  {
    assert Covered(r, rank, t, p, open[p]);
    if open[p] > 0 {
      CeilingOf(r, rank, t.todo[..open[p]], 0);
    }
    assert Chain(r, rank, t.todo[..0]) == map[];
    assert Whole(r, rank, p).Keys <= t.resolved.Keys;
    forall q | q in open
      ensures Covered(r, rank, t.(todo := t.todo[1..]), q, Moved(open, 0)[q])
    {
      SkipCovers(r, rank, t, p, q, open[q]);
    }
    ChainStep(r, rank, t.todo, p);
    AddingNothing(Chain(r, rank, t.todo[1..]), Whole(r, rank, p), t.resolved);
  }

  /** What reading `p` makes of a walk, held or not. */
  ghost predicate Reads(r: Reader, t: Trail, p: PartPath, after: Trail) {
    && t.todo != [] && r.parse(t.todo[0]) == Success(p) && p !in t.visited
    && after.visited == t.visited + {p}
    && after.todo == ExtensionsOf(r, p) + t.todo[1..]
    && after.resolved == EntriesOf(r, p) + t.resolved
  }

  lemma ReadCovers(r: Reader, rank: Rank, t: Trail, p: PartPath, after: Trail, q: PartPath, left: nat)
    requires Acyclic(r, rank) && Covered(r, rank, t, q, left) && Reads(r, t, p, after)
    ensures Covered(r, rank, after, q, if left == 0 then 0 else left - 1 + |ExtensionsOf(r, p)|)
  {
    var extensions := ExtensionsOf(r, p);
    if left > 0 {
      HeadOf(t.todo, left);
      var rest := t.todo[1..][..left - 1];
      assert t.todo[..left][1..] == rest;
      assert after.todo[..left - 1 + |extensions|] == extensions + rest;
      ChainStep(r, rank, t.todo[..left], p);
      ChainOfConcat(r, rank, extensions, rest);
      CeilingOfConcat(r, rank, extensions, rest, rank(q));
    } else {
      assert after.todo[..0] == t.todo[..0];
    }
  }

  lemma LayersRegrouped(a: Layer, b: Layer, c: Layer, d: Layer)
    ensures (a + b) + (c + d) == (a + (b + c)) + d
  {
  }

  lemma ReadPromises(r: Reader, rank: Rank, t: Trail, p: PartPath, after: Trail)
    requires Acyclic(r, rank) && Reads(r, t, p, after)
    ensures Promised(r, rank, after) == Promised(r, rank, t)
  {
    var rest := t.todo[1..];
    var extensions := ExtensionsOf(r, p);
    ChainOfConcat(r, rank, extensions, rest);
    ChainStep(r, rank, t.todo, p);
    LayersRegrouped(Chain(r, rank, rest), Chain(r, rank, extensions), EntriesOf(r, p), t.resolved);
  }

  lemma ReadKeeps(r: Reader, rank: Rank, t: Trail, open: Open, p: PartPath, after: Trail)
    requires Acyclic(r, rank) && AllCovered(r, rank, t, open) && Reads(r, t, p, after)
    ensures AllCovered(r, rank, after, Moved(open, |ExtensionsOf(r, p)|)[p := |ExtensionsOf(r, p)|])
  {
    var more := |ExtensionsOf(r, p)|;
    var owed := Moved(open, more)[p := more];
    forall q | q in owed
      ensures Covered(r, rank, after, q, owed[q])
    {
      if q == p {
        assert after.todo[..more] == ExtensionsOf(r, p);
      } else {
        ReadCovers(r, rank, t, p, after, q, open[q]);
      }
    }
  }

  lemma DoneMeans(r: Reader, rank: Rank, max: nat, t: Trail)
    requires Acyclic(r, rank) && |t.visited| <= max && Advance(r, max, t).Done?
    ensures Walk(r, max, t).answer.Overlaid? ==>
              Walk(r, max, t).answer.entries == Present(Promised(r, rank, t))
  {
    if t.todo == [] {
      assert Promised(r, rank, t) == t.resolved;
    } else {
      assert !Walk(r, max, t).answer.Overlaid?;
    }
  }

  lemma StepReads(r: Reader, max: nat, t: Trail, p: PartPath)
    requires |t.visited| <= max && Advance(r, max, t).Going?
    requires r.parse(t.todo[0]) == Success(p) && p !in t.visited
    ensures Reads(r, t, p, Advance(r, max, t).trail)
  {
    if r.load(p).Absent? {
      assert [] + t.todo[1..] == t.todo[1..];
      assert map[] + t.resolved == t.resolved;
    }
  }

  lemma StepKeeps(r: Reader, rank: Rank, max: nat, t: Trail, open: Open) returns (owed: Open)
    requires Acyclic(r, rank) && AllCovered(r, rank, t, open) && |t.visited| <= max
    requires Advance(r, max, t).Going?
    ensures AllCovered(r, rank, Advance(r, max, t).trail, owed)
    ensures Promised(r, rank, Advance(r, max, t).trail) == Promised(r, rank, t)
  {
    var next := Advance(r, max, t).trail;
    var p := r.parse(t.todo[0]).value;
    if p in t.visited {
      owed := Moved(open, 0);
      SkipKeeps(r, rank, t, open, p);
    } else {
      owed := Moved(open, |ExtensionsOf(r, p)|)[p := |ExtensionsOf(r, p)|];
      StepReads(r, max, t, p);
      ReadKeeps(r, rank, t, open, p, next);
      ReadPromises(r, rank, t, p, next);
    }
  }

  lemma {:induction false} WalkMeans(r: Reader, rank: Rank, max: nat, t: Trail, open: Open)
    requires Acyclic(r, rank) && AllCovered(r, rank, t, open) && |t.visited| <= max
    ensures Walk(r, max, t).answer.Overlaid? ==>
              Walk(r, max, t).answer.entries == Present(Promised(r, rank, t))
    decreases max - |t.visited|, |t.todo|
  {
    var next := Advance(r, max, t);
    if next.Going? {
      var owed := StepKeeps(r, rank, max, t, open);
      WalkMeans(r, rank, max, next.trail, owed);
    } else {
      DoneMeans(r, rank, max, t);
    }
  }

  /** What `top` holds: its entries over its extensions', tombstones kept. */
  ghost function Meant(r: Reader, rank: Rank, top: Directory): Layer
    requires Acyclic(r, rank)
  {
    Chain(r, rank, top.extensions) + top.entries
  }

  /** First found wins, depth-first, is last laid first: the reader overlays what is defined. */
  lemma ResolvedMeans(r: Reader, rank: Rank, top: Directory, max: nat)
    requires Acyclic(r, rank)
    ensures Resolved(r, top, max).answer.Overlaid? ==>
              Resolved(r, top, max).answer.entries == Present(Meant(r, rank, top))
  {
    WalkMeans(r, rank, max, Start(top), map[]);
  }
}
